// Conversely, whatever the parser accepts is a sentence; and its three verdicts, exactly.
module RequestSoundness {
  import opened RequestParser
  import opened RequestGrammar
  import opened RequestLanguage

  // From every state the parser can go on, nearer to the end.
  function Rank(state: State): nat {
    match state
    case MethodStart => 15 case Method => 14 case Uri => 13
    case VersionH => 12 case VersionT1 => 11 case VersionT2 => 10 case VersionP => 9 case VersionSlash => 8
    case MajorStart => 7 case Major => 6 case MinorStart => 5 case Minor => 4 case Newline1 => 3
    case HeaderName => 6 case SpaceBeforeValue => 5 case HeaderValue => 4 case HeaderLws => 4 case Newline2 => 3
    case HeaderLineStart => 2 case Newline3 => 1
  }

  function NextOf(state: State): (char, State)
    requires state != Newline3
  {
    match state
    case MethodStart => ('G', Method) case Method => (' ', Uri) case Uri => (' ', VersionH)
    case VersionH => ('H', VersionT1) case VersionT1 => ('T', VersionT2) case VersionT2 => ('T', VersionP)
    case VersionP => ('P', VersionSlash) case VersionSlash => ('/', MajorStart)
    case MajorStart => ('1', Major) case Major => ('.', MinorStart) case MinorStart => ('0', Minor)
    case Minor => ('\r', Newline1) case Newline1 => ('\n', HeaderLineStart)
    case HeaderName => (':', SpaceBeforeValue) case SpaceBeforeValue => (' ', HeaderValue)
    case HeaderValue => ('\r', Newline2) case HeaderLws => ('\r', Newline2) case Newline2 => ('\n', HeaderLineStart)
    case HeaderLineStart => ('\r', Newline3)
  }

  // ---- The sentence found in an accepted input ----

  function KeptLength(state: State, input: string): (k: nat)
    ensures k <= |input| && (k < |input| ==> !Keeps(state, input[k]))
    ensures forall i :: 0 <= i < k ==> Keeps(state, input[i])
  {
    if input == [] || !Keeps(state, input[0]) then 0 else 1 + KeptLength(state, input[1..])
  }

  // As many characters as the state keeps, then one it does not.
  lemma FindKept(s: Snapshot, input: string) returns (text: string, t: Snapshot, rest: string)
    requires Succeeds(s, input)
    ensures input == text + rest && forall i :: 0 <= i < |text| ==> Keeps(s.state, text[i])
    ensures t.state == s.state && |t.request.headers| == |s.request.headers|
    ensures Succeeds(t, rest) && rest != [] && !Keeps(s.state, rest[0])
  {
    var k := KeptLength(s.state, input);
    text, rest := input[..k], input[k..];
    t := Extend(s, text);
    LeadsKept(s, text);
    assert input == text + rest;
    SucceedsAfter(s, text, t, rest);
  }

  lemma Forced(s: Snapshot, input: string) returns (t: Snapshot, rest: string)
    requires Succeeds(s, input) && s.state != Newline3
    ensures input != [] && rest == input[1..] && input == [input[0]] + rest
    ensures Step(s, input[0]) == Outcome(Indeterminate, t) && Succeeds(t, rest)
  {
    t, rest := Step(s, input[0]).after, input[1..];
  }

  lemma ForcedCrlf(s: Snapshot, input: string) returns (rest: string)
    requires Succeeds(s, input) && s.state in {HeaderValue, HeaderLws, Minor} && !Keeps(s.state, input[0])
    requires s.state == HeaderLws ==> input[0] == '\r'
    ensures input == "\r\n" + rest && Succeeds(At(HeaderLineStart, s.request), rest)
  {
    var a, b := Forced(s, input);
    a, rest := Forced(a, b);
  }

  lemma FindVerb(input: string) returns (verb: string, s: Snapshot, rest: string)
    requires Succeeds(FRESH, input)
    ensures Token(verb) && input == verb + " " + rest
    ensures s.state == Uri && s.request.headers == [] && Succeeds(s, rest)
  {
    var t, a := Forced(FRESH, input);
    var text, u, b := FindKept(t, a);
    verb := [input[0]] + text;
    s, rest := Forced(u, b);
    assert input == verb + b;
  }

  lemma FindUri(s: Snapshot, input: string) returns (uri: string, t: Snapshot, rest: string)
    requires s.state == Uri && Succeeds(s, input)
    ensures UriText(uri) && input == uri + " " + rest
    ensures t.state == VersionH && |t.request.headers| == |s.request.headers| && Succeeds(t, rest)
  {
    var u, a;
    uri, u, a := FindKept(s, input);
    t, rest := Forced(u, a);
  }

  // One of the characters of "HTTP/".
  lemma FindLiteral(s: Snapshot, input: string) returns (t: Snapshot, rest: string)
    requires Succeeds(s, input) && s.state in {VersionH, VersionT1, VersionT2, VersionP, VersionSlash}
    ensures var (c, next) := NextOf(s.state); input == [c] + rest && t.state == next
    ensures |t.request.headers| == |s.request.headers| && Succeeds(t, rest)
  {
    t, rest := Forced(s, input);
  }

  lemma FindPSlash(s: Snapshot, input: string) returns (t: Snapshot, rest: string)
    requires Succeeds(s, input) && s.state == VersionP
    ensures input == ['P'] + (['/'] + rest) && t.state == MajorStart && |t.request.headers| == |s.request.headers|
    ensures Succeeds(t, rest)
  {
    var a, k := FindLiteral(s, input);
    t, rest := FindLiteral(a, k);
  }

  lemma FindHtt(s: Snapshot, input: string) returns (t: Snapshot, rest: string)
    requires Succeeds(s, input) && s.state == VersionH
    ensures input == ['H'] + (['T'] + (['T'] + rest)) && t.state == VersionP
    ensures |t.request.headers| == |s.request.headers| && Succeeds(t, rest)
  {
    var a, h := FindLiteral(s, input);
    var b, i := FindLiteral(a, h);
    t, rest := FindLiteral(b, i);
  }

  lemma HttpParts(rest: string)
    ensures ['H'] + (['T'] + (['T'] + (['P'] + (['/'] + rest)))) == "HTTP/" + rest
  {
  }

  lemma FindHttp(s: Snapshot, input: string) returns (t: Snapshot, rest: string)
    requires Succeeds(s, input) && s.state == VersionH
    ensures input == "HTTP/" + rest && t.state == MajorStart && |t.request.headers| == |s.request.headers|
    ensures Succeeds(t, rest)
  {
    var a, h := FindHtt(s, input);
    t, rest := FindPSlash(a, h);
    HttpParts(rest);
  }

  lemma FindDigits(s: Snapshot, input: string) returns (digits: string, t: Snapshot, rest: string)
    requires Succeeds(s, input) && s.state in {MajorStart, MinorStart}
    ensures Digits(digits) && input == digits + rest
    ensures t.state == (if s.state == MajorStart then Major else Minor) && |t.request.headers| == |s.request.headers|
    ensures Succeeds(t, rest) && rest != [] && !Keeps(t.state, rest[0])
  {
    var a, b := Forced(s, input);
    var text;
    text, t, rest := FindKept(a, b);
    digits := [input[0]] + text;
  }

  lemma FindNumbers(s: Snapshot, input: string)
    returns (major: string, minor: string, w: Snapshot, rest: string)
    requires Succeeds(s, input) && s.state == MajorStart
    ensures Digits(major) && Digits(minor) && input == major + ("." + (minor + rest))
    ensures w.state == Minor && |w.request.headers| == |s.request.headers|
    ensures Succeeds(w, rest) && rest != [] && !Keeps(Minor, rest[0])
  {
    var u, c, v, d;
    major, u, c := FindDigits(s, input);
    v, d := FindPoint(u, c);
    minor, w, rest := FindDigits(v, d);
  }

  lemma FindPoint(s: Snapshot, input: string) returns (v: Snapshot, rest: string)
    requires Succeeds(s, input) && s.state == Major && !Keeps(Major, input[0])
    ensures input == "." + rest && v.state == MinorStart && |v.request.headers| == |s.request.headers|
    ensures Succeeds(v, rest)
  {
    v, rest := Forced(s, input);
  }

  lemma FindVersion(s: Snapshot, input: string)
    returns (major: string, minor: string, r: RequestData, rest: string)
    requires Succeeds(s, input) && s.state == VersionH && s.request.headers == []
    ensures Digits(major) && Digits(minor)
    ensures input == "HTTP/" + (major + ("." + (minor + ("\r\n" + rest))))
    ensures r.headers == [] && Succeeds(At(HeaderLineStart, r), rest)
  {
    var t, b := FindHttp(s, input);
    var w, e;
    major, minor, w, e := FindNumbers(t, b);
    rest := ForcedCrlf(w, e);
    r := w.request;
  }

  lemma FindLine(input: string)
    returns (verb: string, uri: string, major: string, minor: string, r: RequestData, rest: string)
    requires Succeeds(FRESH, input)
    ensures Token(verb) && UriText(uri) && Digits(major) && Digits(minor)
    ensures input == RenderLine(verb, uri, major, minor) + rest
    ensures r.headers == [] && Succeeds(At(HeaderLineStart, r), rest)
  {
    var q, f, s, a;
    verb, q, f := FindVerb(input);
    uri, s, a := FindUri(q, f);
    major, minor, r, rest := FindVersion(s, a);
    assert verb + " " + (uri + " " + a) == verb + " " + uri + " " + a;
    LineParts(verb + " " + uri + " ", major, minor, rest);
  }

  lemma LineParts(front: string, major: string, minor: string, rest: string)
    ensures front + ("HTTP/" + (major + ("." + (minor + ("\r\n" + rest)))))
         == front + "HTTP/" + major + "." + minor + "\r\n" + rest
  {
  }

  lemma FindFoldRest(s: Snapshot, input: string) returns (text: string, rest: string)
    requires s.state == HeaderLws && Succeeds(s, input) && !IsLws(input[0])
    ensures input == text + "\r\n" + rest && ValueText(text) && (text != [] ==> text[0] != ' ')
  {
    if input[0] == '\r' {
      rest := ForcedCrlf(s, input);
      text := "";
    } else {
      var u, c := Forced(s, input);
      var more, v, e := FindKept(u, c);
      rest := ForcedCrlf(v, e);
      text := [input[0]] + more;
    }
  }

  // The text of a continuation line after its first blank.
  lemma FindFoldText(t: Snapshot, input: string) returns (blanks: string, text: string, rest: string)
    requires t.state == HeaderLws && Succeeds(t, input)
    ensures input == blanks + text + "\r\n" + rest && forall i :: 0 <= i < |blanks| ==> IsLws(blanks[i])
    ensures ValueText(text) && (text != [] ==> text[0] != ' ')
  {
    var s, b;
    blanks, s, b := FindKept(t, input);
    text, rest := FindFoldRest(s, b);
    assert blanks + (text + "\r\n" + rest) == blanks + text + "\r\n" + rest;
  }

  lemma FindFold(r: RequestData, input: string) returns (f: Fold, rest: string)
    requires r.headers != [] && Succeeds(At(HeaderLineStart, r), input) && IsLws(input[0])
    ensures FoldOk(f) && input == RenderFold(f) + rest && Succeeds(At(HeaderLineStart, AppendValue(r, f.text)), rest)
  {
    var t, a := Forced(At(HeaderLineStart, r), input);
    var blanks, text;
    blanks, text, rest := FindFoldText(t, a);
    f := Fold([input[0]] + blanks, text);
    assert input == RenderFold(f) + rest;
    AfterFold(r, f, rest);
  }

  lemma AfterFold(r: RequestData, f: Fold, rest: string)
    requires r.headers != [] && FoldOk(f) && Succeeds(At(HeaderLineStart, r), RenderFold(f) + rest)
    ensures Succeeds(At(HeaderLineStart, AppendValue(r, f.text)), rest)
  {
    LeadsFold(r, f);
    SucceedsAfter(At(HeaderLineStart, r), RenderFold(f), At(HeaderLineStart, AppendValue(r, f.text)), rest);
  }

  lemma FindNameStart(r: RequestData, input: string) returns (t: Snapshot, rest: string)
    requires Succeeds(At(HeaderLineStart, r), input) && input[0] != '\r' && (r.headers != [] ==> !IsLws(input[0]))
    ensures IsTokenChar(input[0]) && input == [input[0]] + rest && t.state == HeaderName && Succeeds(t, rest)
  {
    t, rest := Forced(At(HeaderLineStart, r), input);
  }

  lemma FindSpace(s: Snapshot, input: string) returns (v: Snapshot, rest: string)
    requires s.state == SpaceBeforeValue && Succeeds(s, input)
    ensures input == [' '] + rest && v.state == HeaderValue && Succeeds(v, rest)
  {
    v, rest := Forced(s, input);
  }

  lemma FindColon(s: Snapshot, input: string) returns (v: Snapshot, rest: string)
    requires s.state == HeaderName && Succeeds(s, input) && !Keeps(HeaderName, input[0])
    ensures input == ": " + rest && v.state == HeaderValue && Succeeds(v, rest)
  {
    var u, c := Forced(s, input);
    assert u.state == SpaceBeforeValue && input[0] == ':';
    v, rest := FindSpace(u, c);
    assert ": " == [':'] + [' '];
  }

  lemma FindName(r: RequestData, input: string) returns (name: string, v: Snapshot, rest: string)
    requires Succeeds(At(HeaderLineStart, r), input) && input[0] != '\r' && (r.headers != [] ==> !IsLws(input[0]))
    ensures Token(name) && input == name + ": " + rest && v.state == HeaderValue && Succeeds(v, rest)
  {
    var t, a := FindNameStart(r, input);
    var text, u, b := FindKept(t, a);
    name := [input[0]] + text;
    v, rest := FindColon(u, b);
    NameParts(input[0], text, rest);
  }

  lemma NameParts(c: char, text: string, rest: string)
    ensures [c] + (text + (": " + rest)) == [c] + text + ": " + rest
  {
  }

  lemma FindFieldLine(r: RequestData, input: string) returns (name: string, first: string, rest: string)
    requires Succeeds(At(HeaderLineStart, r), input) && input[0] != '\r' && (r.headers != [] ==> !IsLws(input[0]))
    ensures Token(name) && ValueText(first) && input == RenderFieldLine(Field(name, first, [])) + rest
    ensures Succeeds(At(HeaderLineStart, r.(headers := r.headers + [Header(name, first)])), rest)
  {
    var v, d, w, e;
    name, v, d := FindName(r, input);
    first, w, e := FindKept(v, d);
    rest := ForcedCrlf(w, e);
    assert input == name + ": " + first + "\r\n" + rest;
    AfterFieldLine(r, Field(name, first, []), rest);
  }

  lemma AfterFieldLine(r: RequestData, f: Field, rest: string)
    requires FieldOk(f) && Succeeds(At(HeaderLineStart, r), RenderFieldLine(f) + rest)
    ensures Succeeds(At(HeaderLineStart, r.(headers := r.headers + [Header(f.name, f.first)])), rest)
  {
    LeadsFieldLine(r, f);
    SucceedsAfter(At(HeaderLineStart, r), RenderFieldLine(f),
                  At(HeaderLineStart, r.(headers := r.headers + [Header(f.name, f.first)])), rest);
  }

  lemma FoldInFront(f: Fold, more: seq<Fold>, tail: string)
    ensures RenderFold(f) + (RenderFolds(more) + tail) == RenderFolds([f] + more) + tail
  {
    assert ([f] + more)[1..] == more;
  }

  lemma FieldInFront(f: Field, more: seq<Field>, tail: string)
    ensures RenderFieldLine(f) + (RenderFolds(f.folds) + (RenderFields(more) + tail)) == RenderFields([f] + more) + tail
  {
    assert ([f] + more)[1..] == more;
  }

  lemma SameLine(name: string, first: string, folds: seq<Fold>)
    ensures RenderFieldLine(Field(name, first, folds)) == RenderFieldLine(Field(name, first, []))
  {
  }

  lemma FindBlankLine(r: RequestData, input: string) returns (rest: string)
    requires Succeeds(At(HeaderLineStart, r), input) && input[0] == '\r'
    ensures input == "\r\n" + rest && RenderFolds([]) + (RenderFields([]) + ("\r\n" + rest)) == input
  {
    var t, a := Forced(At(HeaderLineStart, r), input);
    rest := a[1..];
  }

  // Continuation lines first, then fields, then the blank line.
  lemma {:induction false} FindHeaderLines(r: RequestData, input: string)
    returns (folds: seq<Fold>, fields: seq<Field>, rest: string)
    requires Succeeds(At(HeaderLineStart, r), input)
    ensures FoldsOk(folds) && FieldsOk(fields) && (r.headers == [] ==> folds == [])
    ensures input == RenderFolds(folds) + (RenderFields(fields) + ("\r\n" + rest))
    decreases |input|
  {
    assert input != [];
    if input[0] == '\r' {
      rest := FindBlankLine(r, input);
      folds, fields := [], [];
    } else if r.headers != [] && IsLws(input[0]) {
      var f, a := FindFold(r, input);
      var more;
      more, fields, rest := FindHeaderLines(AppendValue(r, f.text), a);
      folds := [f] + more;
      FoldInFront(f, more, RenderFields(fields) + ("\r\n" + rest));
    } else {
      var name, first, a := FindFieldLine(r, input);
      var own, more;
      own, more, rest := FindHeaderLines(r.(headers := r.headers + [Header(name, first)]), a);
      folds, fields := [], [Field(name, first, own)] + more;
      FieldInFront(fields[0], more, "\r\n" + rest);
      SameLine(name, first, own);
    }
  }

  lemma RenderParts(t: Sentence, rest: string)
    ensures RenderLine(t.verb, t.uri, t.major, t.minor) + ("" + (RenderFields(t.fields) + ("\r\n" + rest)))
         == Render(t) + rest
  {
  }

  lemma FindSentence(input: string) returns (t: Sentence)
    requires Run(FRESH, input).verdict == Accepted
    ensures WellFormed(t) && Render(t) <= input
    ensures Run(FRESH, input) == Parsed(Accepted, |Render(t)|, At(Newline3, Meaning(t)))
  {
    var verb, uri, major, minor, r, a := FindLine(input);
    var folds, fields, rest := FindHeaderLines(r, a);
    t := Sentence(verb, uri, major, minor, fields);
    RenderParts(t, rest);
    SentenceAccepted(t, rest);
  }

  // ---- Every state can still be completed ----

  lemma CanGoOn(s: Snapshot)
    requires s.Valid() && s.state != Newline3
    ensures var (c, next) := NextOf(s.state);
            Step(s, c).verdict == Indeterminate && Step(s, c).after.state == next && Rank(next) < Rank(s.state)
  {
  }

  lemma {:induction false} CanBeCompleted(s: Snapshot) returns (ending: string)
    requires s.Valid()
    ensures Succeeds(s, ending) && ending != []
    decreases Rank(s.state)
  {
    if s.state == Newline3 {
      ending := "\n";
    } else {
      var (c, next) := NextOf(s.state);
      var t := Step(s, c).after;
      CanGoOn(s);
      var more := CanBeCompleted(t);
      ending := [c] + more;
      assert ending[1..] == more;
    }
  }

  // ---- The three verdicts ----

  ghost predicate IsSentence(text: string) {
    exists t :: WellFormed(t) && Render(t) == text
  }

  ghost predicate Denotes(text: string, r: RequestData) {
    exists t :: WellFormed(t) && Render(t) == text && Meaning(t) == r
  }

  // More input can still make it a sentence, and some is needed.
  ghost predicate ProperPrefixOfSentence(text: string) {
    exists t :: WellFormed(t) && text < Render(t)
  }

  lemma {:induction false} RunOfConsumed(s: Snapshot, input: string)
    requires s.Valid() && Run(s, input).verdict != Indeterminate
    ensures var n := Run(s, input).consumed;
            n > 0 && Run(s, input[..n]) == Run(s, input) && Run(s, input[..n - 1]).verdict == Indeterminate
    decreases |input|
  {
    var n, o := Run(s, input).consumed, Step(s, input[0]);
    if o.verdict == Indeterminate {
      RunOfConsumed(o.after, input[1..]);
      assert input[..n][1..] == input[1..][..n - 1] && input[..n - 1][1..] == input[1..][..n - 2];
    }
  }

  lemma IndeterminateIsPrefix(input: string)
    requires Run(FRESH, input).verdict == Indeterminate
    ensures ProperPrefixOfSentence(input)
  {
    var ending := CanBeCompleted(Run(FRESH, input).after);
    RunAppend(FRESH, input, ending);
    var t := FindSentence(input + ending);
    assert |Render(t)| > |input|;
    PrefixOfSum(Render(t), input, ending);
  }

  lemma PrefixOfSum(whole: string, a: string, b: string)
    requires whole <= a + b && |whole| > |a|
    ensures a < whole
  {
    assert whole == (a + b)[..|whole|];
  }

  lemma PrefixIsIndeterminate(input: string)
    requires ProperPrefixOfSentence(input)
    ensures Run(FRESH, input).verdict == Indeterminate
  {
    var t :| WellFormed(t) && input < Render(t);
    var whole, missing := Render(t), Render(t)[|input|..];
    SentenceAccepted(t, []);
    assert whole + [] == whole == input + missing;
    RunAppend(FRESH, input, missing);
  }

  lemma SentenceVerdict(text: string, rest: string)
    requires IsSentence(text)
    ensures Run(FRESH, text + rest).verdict == Accepted && Run(FRESH, text + rest).consumed == |text|
  {
    var t :| WellFormed(t) && Render(t) == text;
    SentenceAccepted(t, rest);
  }

  lemma AcceptedIsSentence(input: string)
    requires Run(FRESH, input).verdict == Accepted
    ensures var p := Run(FRESH, input);
            IsSentence(input[..p.consumed]) && Denotes(input[..p.consumed], p.after.request)
  {
    var t := FindSentence(input);
    assert Render(t) == input[..Run(FRESH, input).consumed];
  }

  lemma SentenceIsAccepted(input: string, n: nat)
    requires n <= |input| && IsSentence(input[..n])
    ensures Run(FRESH, input).verdict == Accepted && Run(FRESH, input).consumed == n
  {
    var text, rest := input[..n], input[n..];
    assert text + rest == input;
    SentenceVerdict(text, rest);
  }

  lemma NotRejected(text: string)
    ensures ProperPrefixOfSentence(text) || IsSentence(text) ==> Run(FRESH, text).verdict != Rejected
  {
    if ProperPrefixOfSentence(text) {
      PrefixIsIndeterminate(text);
    }
    if IsSentence(text) {
      assert text + [] == text;
      SentenceVerdict(text, []);
    }
  }

  lemma RejectedAtOnce(input: string)
    requires Run(FRESH, input).verdict == Rejected
    ensures var n := Run(FRESH, input).consumed;
            n > 0 && ProperPrefixOfSentence(input[..n - 1])
            && !ProperPrefixOfSentence(input[..n]) && !IsSentence(input[..n])
  {
    RunOfConsumed(FRESH, input);
    var n := Run(FRESH, input).consumed;
    IndeterminateIsPrefix(input[..n - 1]);
    NotRejected(input[..n]);
  }

  // Started fresh, the parser says Accepted when what it consumed is a sentence (and the request is what that
  // means), Indeterminate when the input is a proper prefix of one, and Rejected at the first byte after which no
  // sentence is possible.
  lemma VerdictsAreExact(input: string)
    ensures var p := Run(FRESH, input); var read := input[..p.consumed];
            match p.verdict
            case Accepted => IsSentence(read) && Denotes(read, p.after.request)
            case Indeterminate => ProperPrefixOfSentence(input)
            case Rejected => p.consumed > 0 && ProperPrefixOfSentence(input[..p.consumed - 1])
                             && !ProperPrefixOfSentence(read) && !IsSentence(read)
    ensures (exists n :: 0 <= n <= |input| && IsSentence(input[..n])) <==> Run(FRESH, input).verdict == Accepted
    ensures ProperPrefixOfSentence(input) <==> Run(FRESH, input).verdict == Indeterminate
  {
    if n :| 0 <= n <= |input| && IsSentence(input[..n]) {
      SentenceIsAccepted(input, n);
    }
    if ProperPrefixOfSentence(input) {
      PrefixIsIndeterminate(input);
    }
    match Run(FRESH, input).verdict
    case Accepted => AcceptedIsSentence(input);
    case Indeterminate => IndeterminateIsPrefix(input);
    case Rejected => RejectedAtOnce(input);
  }

  // A sentence means one request, and no sentence is a proper prefix of another.
  lemma SentencesArePrefixFree(t: Sentence, u: Sentence)
    requires WellFormed(t) && WellFormed(u) && Render(t) <= Render(u)
    ensures Render(t) == Render(u) && Meaning(t) == Meaning(u)
  {
    SentenceAccepted(t, Render(u)[|Render(t)|..]);
    SentenceAccepted(u, []);
    assert Render(t) + Render(u)[|Render(t)|..] == Render(u) == Render(u) + [];
  }
}
