// The request grammar, written down without the parser: request line, header fields with folded
// continuation lines, blank line. RFC 1945, sections 2.2, 3.1, 4.2 and 5.1, as far as the parser goes.
module RequestGrammar {
  import opened RequestParser

  // A continuation line: leading blanks and what stands after them.
  datatype Fold = Fold(lead: string, text: string)

  datatype Field = Field(name: string, first: string, folds: seq<Fold>)

  datatype Sentence = Sentence(verb: string, uri: string, major: string, minor: string, fields: seq<Field>)

  ghost predicate Token(s: string) {
    s != [] && forall i :: 0 <= i < |s| ==> IsTokenChar(s[i])
  }

  ghost predicate UriText(s: string) {
    forall i :: 0 <= i < |s| ==> s[i] != ' ' && !IsCtl(s[i])
  }

  ghost predicate Digits(s: string) {
    s != [] && forall i :: 0 <= i < |s| ==> IsDigit(s[i])
  }

  ghost predicate ValueText(s: string) {
    forall i :: 0 <= i < |s| ==> !IsCtl(s[i])
  }

  ghost predicate Blanks(s: string) {
    s != [] && forall i :: 0 <= i < |s| ==> IsLws(s[i])
  }

  ghost predicate FoldOk(f: Fold) {
    Blanks(f.lead) && ValueText(f.text) && (f.text != [] ==> f.text[0] != ' ')
  }

  ghost predicate FoldsOk(folds: seq<Fold>) {
    forall i :: 0 <= i < |folds| ==> FoldOk(folds[i])
  }

  ghost predicate FieldOk(f: Field) {
    Token(f.name) && ValueText(f.first) && FoldsOk(f.folds)
  }

  ghost predicate FieldsOk(fields: seq<Field>) {
    forall i :: 0 <= i < |fields| ==> FieldOk(fields[i])
  }

  ghost predicate WellFormed(t: Sentence) {
    Token(t.verb) && UriText(t.uri) && Digits(t.major) && Digits(t.minor) && FieldsOk(t.fields)
  }

  // ---- The text of a sentence ----

  function RenderFold(f: Fold): string {
    f.lead + f.text + "\r\n"
  }

  function RenderFolds(folds: seq<Fold>): string {
    if folds == [] then "" else RenderFold(folds[0]) + RenderFolds(folds[1..])
  }

  function RenderFieldLine(f: Field): string {
    f.name + ": " + f.first + "\r\n"
  }

  function RenderFields(fields: seq<Field>): string {
    if fields == [] then ""
    else RenderFieldLine(fields[0]) + RenderFolds(fields[0].folds) + RenderFields(fields[1..])
  }

  function RenderLine(verb: string, uri: string, major: string, minor: string): string {
    verb + " " + uri + " " + "HTTP/" + major + "." + minor + "\r\n"
  }

  function Render(t: Sentence): string {
    RenderLine(t.verb, t.uri, t.major, t.minor) + RenderFields(t.fields) + "\r\n"
  }

  // ---- The request a sentence stands for ----

  ghost function Number(digits: string): nat
    requires forall i :: 0 <= i < |digits| ==> IsDigit(digits[i])
  {
    if digits == [] then 0 else Number(digits[..|digits| - 1]) * 10 + DigitValue(digits[|digits| - 1])
  }

  function Joined(folds: seq<Fold>): string {
    if folds == [] then "" else folds[0].text + Joined(folds[1..])
  }

  function FieldHeader(f: Field): Header {
    Header(f.name, f.first + Joined(f.folds))
  }

  function FieldHeaders(fields: seq<Field>): seq<Header> {
    if fields == [] then [] else [FieldHeader(fields[0])] + FieldHeaders(fields[1..])
  }

  ghost function Meaning(t: Sentence): RequestData
    requires WellFormed(t)
  {
    RequestData(t.verb, t.uri, Number(t.major), Number(t.minor), FieldHeaders(t.fields))
  }

  // ---- Reading with the parser ----

  // The parser reads text from s, without a verdict, and is then in t.
  ghost predicate Leads(s: Snapshot, text: string, t: Snapshot) {
    s.Valid() && Run(s, text) == Parsed(Indeterminate, |text|, t)
  }

  lemma LeadsThen(s: Snapshot, a: string, t: Snapshot, b: string, u: Snapshot)
    requires Leads(s, a, t) && Leads(t, b, u)
    ensures Leads(s, a + b, u)
  {
    RunAppend(s, a, b);
  }

  lemma LeadsChar(s: Snapshot, c: char)
    requires s.Valid() && Step(s, c).verdict == Indeterminate
    ensures Leads(s, [c], Step(s, c).after)
  {
    assert Run(Step(s, c).after, []) == Parsed(Indeterminate, 0, Step(s, c).after);
    assert [c][1..] == [];
  }

  // The characters on which a state stays where it is, and what reading them adds to the request.
  predicate Keeps(state: State, c: char) {
    match state
    case Method => IsTokenChar(c)
    case Uri => c != ' ' && !IsCtl(c)
    case Major => IsDigit(c)
    case Minor => IsDigit(c)
    case HeaderLws => IsLws(c)
    case HeaderName => IsTokenChar(c)
    case HeaderValue => !IsCtl(c)
    case _ => false
  }

  ghost predicate AllKept(state: State, text: string) {
    forall i :: 0 <= i < |text| ==> Keeps(state, text[i])
  }

  ghost function NumberFrom(n: nat, digits: string): nat
    requires forall i :: 0 <= i < |digits| ==> IsDigit(digits[i])
    decreases |digits|
  {
    if digits == [] then n else NumberFrom(n * 10 + DigitValue(digits[0]), digits[1..])
  }

  ghost function Extend(s: Snapshot, text: string): (t: Snapshot)
    requires s.Valid() && AllKept(s.state, text)
    ensures t.Valid() && t.state == s.state
  {
    var r := s.request;
    s.(request := match s.state
                  case Method => r.(verb := r.verb + text)
                  case Uri => r.(uri := r.uri + text)
                  case Major => r.(major := NumberFrom(r.major, text))
                  case Minor => r.(minor := NumberFrom(r.minor, text))
                  case HeaderName => AppendName(r, text)
                  case HeaderValue => AppendValue(r, text)
                  case _ => r)
  }

  lemma ExtendEmpty(s: Snapshot)
    requires s.Valid()
    ensures Extend(s, []) == s
  {
    var r := s.request;
    assert r.verb + [] == r.verb && r.uri + [] == r.uri;
    if r.headers != [] {
      var h := r.headers[|r.headers| - 1];
      assert h.name + [] == h.name && h.value + [] == h.value;
      assert r.headers[|r.headers| - 1 := h] == r.headers;
    }
  }

  lemma ExtendFirst(s: Snapshot, text: string)
    requires s.Valid() && text != [] && AllKept(s.state, text)
    ensures Step(s, text[0]).verdict == Indeterminate && Step(s, text[0]).after.state == s.state
    ensures Extend(Step(s, text[0]).after, text[1..]) == Extend(s, text)
  {
    var r := s.request;
    var c, rest := [text[0]], text[1..];
    assert c + rest == text;
    assert r.verb + c + rest == r.verb + text && r.uri + c + rest == r.uri + text;
    if s.state == HeaderName || s.state == HeaderValue {
      var h := r.headers[|r.headers| - 1];
      assert h.name + c + rest == h.name + text && h.value + c + rest == h.value + text;
    }
  }

  lemma {:induction false} LeadsKept(s: Snapshot, text: string)
    requires s.Valid() && AllKept(s.state, text)
    ensures Leads(s, text, Extend(s, text))
    decreases |text|
  {
    if text == [] {
      ExtendEmpty(s);
    } else {
      ExtendFirst(s, text);
      LeadsKept(Step(s, text[0]).after, text[1..]);
    }
  }

  // From s the parser accepts some prefix of the input.
  ghost predicate Succeeds(s: Snapshot, input: string) {
    s.Valid() && Run(s, input).verdict == Accepted
  }

  lemma SucceedsAfter(s: Snapshot, text: string, t: Snapshot, rest: string)
    requires Leads(s, text, t)
    ensures Succeeds(s, text + rest) <==> Succeeds(t, rest)
  {
    RunAppend(s, text, rest);
  }

  // Reading one character and then more that the next state keeps.
  lemma LeadsCharKept(s: Snapshot, text: string) returns (t: Snapshot)
    requires s.Valid() && text != [] && Step(s, text[0]).verdict == Indeterminate
    requires AllKept(Step(s, text[0]).after.state, text[1..])
    ensures t == Extend(Step(s, text[0]).after, text[1..]) && Leads(s, text, t)
  {
    var after := Step(s, text[0]).after;
    t := Extend(after, text[1..]);
    LeadsChar(s, text[0]);
    LeadsKept(after, text[1..]);
    LeadsThen(s, [text[0]], after, text[1..], t);
    assert [text[0]] + text[1..] == text;
  }

  lemma {:induction false} NumberFromIs(a: string, b: string)
    requires forall i :: 0 <= i < |a| ==> IsDigit(a[i])
    requires forall i :: 0 <= i < |b| ==> IsDigit(b[i])
    ensures NumberFrom(Number(a), b) == Number(a + b)
    decreases |b|
  {
    if b == [] {
      assert a + b == a;
    } else {
      assert (a + [b[0]])[..|a|] == a;
      NumberFromIs(a + [b[0]], b[1..]);
      assert a + [b[0]] + b[1..] == a + b;
    }
  }
}
