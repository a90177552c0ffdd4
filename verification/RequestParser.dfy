// The byte-at-a-time HTTP request parser (src/GUI/RequestParser.h, src/GUI/RequestParser.cpp).
// A byte is written as the character with its code.
module RequestParser {

  // ---- Character classes ----

  predicate IsChar(c: char) {
    0 <= c as int <= 127
  }

  predicate IsCtl(c: char) {
    0 <= c as int <= 31 || c as int == 127
  }

  predicate IsTspecial(c: char) {
    c in "()<>@,;:\\\"/[]?={} \t"
  }

  predicate IsDigit(c: char) {
    '0' <= c <= '9'
  }

  function DigitValue(c: char): nat
    requires IsDigit(c)
  {
    c as int - '0' as int
  }

  // A character of a token: the test made in the method and header name states.
  predicate IsTokenChar(c: char) {
    IsChar(c) && !IsCtl(c) && !IsTspecial(c)
  }

  predicate IsLws(c: char) {
    c == ' ' || c == '\t'
  }

  predicate IsLetter(c: char) {
    'A' <= c <= 'Z' || 'a' <= c <= 'z'
  }

  // The classes without the tables: a token is made of letters, digits and fifteen marks; the control characters are
  // the codes below the space and 127; blanks are the space and the tab.
  lemma CharacterClasses(c: char)
    ensures IsTokenChar(c) <==> IsLetter(c) || c in "0123456789" || c in "!#$%&'*+-.^_`|~"
    ensures IsCtl(c) <==> c < ' ' || c as int == 127
    ensures IsLws(c) <==> c as int == 32 || c as int == 9
    ensures IsDigit(c) <==> c in "0123456789"
    ensures IsDigit(c) ==> "0123456789"[DigitValue(c)] == c
  {
  }

  // ---- Requests, states and one step, as values ----

  datatype Header = Header(name: string, value: string)

  // The field `method` of a request is called verb here, method being a reserved word.
  datatype RequestData = RequestData(verb: string, uri: string, major: nat, minor: nat, headers: seq<Header>)

  const EMPTY_REQUEST := RequestData("", "", 0, 0, [])

  datatype State =
    | MethodStart | Method | Uri
    | VersionH | VersionT1 | VersionT2 | VersionP | VersionSlash
    | MajorStart | Major | MinorStart | Minor
    | Newline1 | HeaderLineStart | HeaderLws | HeaderName | SpaceBeforeValue | HeaderValue | Newline2 | Newline3

  // The three values of a tribool.
  datatype Verdict = Accepted | Rejected | Indeterminate

  datatype Snapshot = Snapshot(state: State, request: RequestData) {
    // In the states that extend the last header there is one.
    predicate Valid() {
      state in {HeaderLws, HeaderName, SpaceBeforeValue, HeaderValue, Newline2} ==> request.headers != []
    }
  }

  const FRESH := Snapshot(MethodStart, EMPTY_REQUEST)

  datatype Outcome = Outcome(verdict: Verdict, after: Snapshot)

  function AppendName(r: RequestData, text: string): RequestData
    requires r.headers != []
  {
    var last := |r.headers| - 1;
    r.(headers := r.headers[last := r.headers[last].(name := r.headers[last].name + text)])
  }

  function AppendValue(r: RequestData, text: string): RequestData
    requires r.headers != []
  {
    var last := |r.headers| - 1;
    r.(headers := r.headers[last := r.headers[last].(value := r.headers[last].value + text)])
  }

  function Step(s: Snapshot, c: char): (o: Outcome)
    requires s.Valid()
    ensures o.after.Valid()
    ensures o.verdict != Indeterminate ==> o.after == s
  {
    var r := s.request;
    var no := Outcome(Rejected, s);
    match s.state
    case MethodStart =>
      if !IsTokenChar(c) then no else Go(Method, r.(verb := r.verb + [c]))
    case Method =>
      if c == ' ' then Go(Uri, r)
      else if !IsTokenChar(c) then no
      else Go(Method, r.(verb := r.verb + [c]))
    case Uri =>
      if c == ' ' then Go(VersionH, r)
      else if IsCtl(c) then no
      else Go(Uri, r.(uri := r.uri + [c]))
    case VersionH => if c == 'H' then Go(VersionT1, r) else no
    case VersionT1 => if c == 'T' then Go(VersionT2, r) else no
    case VersionT2 => if c == 'T' then Go(VersionP, r) else no
    case VersionP => if c == 'P' then Go(VersionSlash, r) else no
    case VersionSlash => if c == '/' then Go(MajorStart, r.(major := 0, minor := 0)) else no
    case MajorStart =>
      if IsDigit(c) then Go(Major, r.(major := r.major * 10 + DigitValue(c))) else no
    case Major =>
      if c == '.' then Go(MinorStart, r)
      else if IsDigit(c) then Go(Major, r.(major := r.major * 10 + DigitValue(c)))
      else no
    case MinorStart =>
      if IsDigit(c) then Go(Minor, r.(minor := r.minor * 10 + DigitValue(c))) else no
    case Minor =>
      if c == '\r' then Go(Newline1, r)
      else if IsDigit(c) then Go(Minor, r.(minor := r.minor * 10 + DigitValue(c)))
      else no
    case Newline1 => if c == '\n' then Go(HeaderLineStart, r) else no
    case HeaderLineStart =>
      if c == '\r' then Go(Newline3, r)
      else if r.headers != [] && IsLws(c) then Go(HeaderLws, r)
      else if !IsTokenChar(c) then no
      else Go(HeaderName, r.(headers := r.headers + [Header([c], "")]))
    case HeaderLws =>
      if c == '\r' then Go(Newline2, r)
      else if IsLws(c) then Go(HeaderLws, r)
      else if IsCtl(c) then no
      else Go(HeaderValue, AppendValue(r, [c]))
    case HeaderName =>
      if c == ':' then Go(SpaceBeforeValue, r)
      else if !IsTokenChar(c) then no
      else Go(HeaderName, AppendName(r, [c]))
    case SpaceBeforeValue => if c == ' ' then Go(HeaderValue, r) else no
    case HeaderValue =>
      if c == '\r' then Go(Newline2, r)
      else if IsCtl(c) then no
      else Go(HeaderValue, AppendValue(r, [c]))
    case Newline2 => if c == '\n' then Go(HeaderLineStart, r) else no
    case Newline3 => Outcome(if c == '\n' then Accepted else Rejected, s)
  }

  function Go(state: State, request: RequestData): Outcome {
    Outcome(Indeterminate, Snapshot(state, request))
  }

  // ---- The parse loop, as a value ----

  datatype Parsed = Parsed(verdict: Verdict, consumed: nat, after: Snapshot)

  function Run(s: Snapshot, input: string): (p: Parsed)
    requires s.Valid()
    ensures p.after.Valid() && p.consumed <= |input|
    ensures p.verdict == Indeterminate ==> p.consumed == |input|
    decreases |input|
  {
    if input == [] then Parsed(Indeterminate, 0, s)
    else
      var o := Step(s, input[0]);
      if o.verdict != Indeterminate then Parsed(o.verdict, 1, o.after)
      else
        var rest := Run(o.after, input[1..]);
        rest.(consumed := rest.consumed + 1)
  }

  // Reading a text first and what follows next is the same as reading both at once.
  lemma {:induction false} RunAppend(s: Snapshot, a: string, b: string)
    requires s.Valid()
    ensures Run(s, a).verdict != Indeterminate ==> Run(s, a + b) == Run(s, a)
    ensures Run(s, a).verdict == Indeterminate ==>
              var rest := Run(Run(s, a).after, b);
              Run(s, a + b) == rest.(consumed := |a| + rest.consumed)
    decreases |a|
  {
    if a == [] {
      assert a + b == b;
    } else {
      assert (a + b)[1..] == a[1..] + b;
      RunAppend(Step(s, a[0]).after, a[1..], b);
    }
  }

  // ---- The objects ----

  class Request {
    var verb: string
    var uri: string
    var httpVersionMajor: nat
    var httpVersionMinor: nat
    var headers: seq<Header>

    constructor ()
      ensures View() == EMPTY_REQUEST
    {
      verb, uri, httpVersionMajor, httpVersionMinor, headers := "", "", 0, 0, [];
    }

    function View(): RequestData
      reads this
    {
      RequestData(verb, uri, httpVersionMajor, httpVersionMinor, headers)
    }
  }

  class RequestParser {
    var state: State

    constructor ()
      ensures state == MethodStart
    {
      state := MethodStart;
    }

    // Resets the state only; the request is the caller's.
    method Reset()
      modifies this
      ensures state == MethodStart
    {
      state := MethodStart;
    }

    function View(req: Request): Snapshot
      reads this, req
    {
      Snapshot(state, req.View())
    }

    method Consume(req: Request, input: char) returns (result: Verdict)
      requires View(req).Valid()
      modifies this, req
      ensures View(req).Valid()
      ensures Outcome(result, View(req)) == Step(old(View(req)), input)
    {
      result := Indeterminate;
      match state {
        case MethodStart =>
          if !IsChar(input) || IsCtl(input) || IsTspecial(input) { return Rejected; }
          state := Method;
          req.verb := req.verb + [input];
        case Method =>
          if input == ' ' { state := Uri; }
          else if !IsChar(input) || IsCtl(input) || IsTspecial(input) { return Rejected; }
          else { req.verb := req.verb + [input]; }
        case Uri =>
          if input == ' ' { state := VersionH; }
          else if IsCtl(input) { return Rejected; }
          else { req.uri := req.uri + [input]; }
        case VersionH => result := Expect(input, 'H', VersionT1);
        case VersionT1 => result := Expect(input, 'T', VersionT2);
        case VersionT2 => result := Expect(input, 'T', VersionP);
        case VersionP => result := Expect(input, 'P', VersionSlash);
        case VersionSlash =>
          if input != '/' { return Rejected; }
          req.httpVersionMajor, req.httpVersionMinor := 0, 0;
          state := MajorStart;
        case MajorStart =>
          if !IsDigit(input) { return Rejected; }
          req.httpVersionMajor := req.httpVersionMajor * 10 + DigitValue(input);
          state := Major;
        case Major =>
          if input == '.' { state := MinorStart; }
          else if IsDigit(input) { req.httpVersionMajor := req.httpVersionMajor * 10 + DigitValue(input); }
          else { return Rejected; }
        case MinorStart =>
          if !IsDigit(input) { return Rejected; }
          req.httpVersionMinor := req.httpVersionMinor * 10 + DigitValue(input);
          state := Minor;
        case Minor =>
          if input == '\r' { state := Newline1; }
          else if IsDigit(input) { req.httpVersionMinor := req.httpVersionMinor * 10 + DigitValue(input); }
          else { return Rejected; }
        case Newline1 => result := Expect(input, '\n', HeaderLineStart);
        case HeaderLineStart =>
          if input == '\r' { state := Newline3; }
          else if req.headers != [] && (input == ' ' || input == '\t') { state := HeaderLws; }
          else if !IsChar(input) || IsCtl(input) || IsTspecial(input) { return Rejected; }
          else {
            req.headers := req.headers + [Header([input], "")];
            state := HeaderName;
          }
        case HeaderLws =>
          if input == '\r' { state := Newline2; }
          else if input == ' ' || input == '\t' { }
          else if IsCtl(input) { return Rejected; }
          else {
            state := HeaderValue;
            req.headers := AppendValue(req.View(), [input]).headers;
          }
        case HeaderName =>
          if input == ':' { state := SpaceBeforeValue; }
          else if !IsChar(input) || IsCtl(input) || IsTspecial(input) { return Rejected; }
          else { req.headers := AppendName(req.View(), [input]).headers; }
        case SpaceBeforeValue => result := Expect(input, ' ', HeaderValue);
        case HeaderValue =>
          if input == '\r' { state := Newline2; }
          else if IsCtl(input) { return Rejected; }
          else { req.headers := AppendValue(req.View(), [input]).headers; }
        case Newline2 => result := Expect(input, '\n', HeaderLineStart);
        case Newline3 => return if input == '\n' then Accepted else Rejected;
      }
    }

    method Expect(input: char, wanted: char, next: State) returns (result: Verdict)
      modifies this
      ensures result == (if input == wanted then Indeterminate else Rejected)
      ensures state == if input == wanted then next else old(state)
    {
      if input != wanted { return Rejected; }
      state := next;
      result := Indeterminate;
    }

    method Parse(req: Request, input: string) returns (result: Verdict, consumed: nat)
      requires View(req).Valid()
      modifies this, req
      ensures View(req).Valid()
      ensures Parsed(result, consumed, View(req)) == Run(old(View(req)), input)
    {
      consumed := 0;
      while consumed != |input|
        invariant consumed <= |input| && View(req).Valid()
        invariant var rest := Run(View(req), input[consumed..]);
                  rest.(consumed := consumed + rest.consumed) == Run(old(View(req)), input)
        decreases |input| - consumed
      {
        ghost var left := input[consumed..];
        result := Consume(req, input[consumed]);
        consumed := consumed + 1;
        assert left[1..] == input[consumed..];
        if result != Indeterminate { return; }
      }
      return Indeterminate, consumed;
    }
  }
}
