// Every sentence of the grammar is accepted, with the request it means.
module RequestLanguage {
  import opened RequestParser
  import opened RequestGrammar

  // ---- Every sentence is accepted ----

  function At(state: State, r: RequestData): Snapshot {
    Snapshot(state, r)
  }

  lemma LeadsVerb(verb: string)
    requires Token(verb)
    ensures Leads(FRESH, verb + " ", At(Uri, EMPTY_REQUEST.(verb := verb)))
  {
    var t := LeadsCharKept(FRESH, verb);
    assert [verb[0]] + verb[1..] == verb;
    assert t == At(Method, EMPTY_REQUEST.(verb := verb));
    LeadsChar(t, ' ');
    LeadsThen(FRESH, verb, t, " ", Step(t, ' ').after);
  }

  lemma LeadsUri(r: RequestData, uri: string)
    requires r.uri == "" && UriText(uri)
    ensures Leads(At(Uri, r), uri + " ", At(VersionH, r.(uri := uri)))
  {
    var s := At(Uri, r);
    LeadsKept(s, uri);
    var t := Extend(s, uri);
    assert "" + uri == uri;
    LeadsChar(t, ' ');
    LeadsThen(s, uri, t, " ", Step(t, ' ').after);
  }

  lemma LeadsHttp(r: RequestData)
    ensures Leads(At(VersionH, r), "HTTP/", At(MajorStart, r.(major := 0, minor := 0)))
  {
    var s := At(VersionH, r);
    LeadsChar(s, 'H');
    LeadsChar(At(VersionT1, r), 'T');
    LeadsChar(At(VersionT2, r), 'T');
    LeadsChar(At(VersionP, r), 'P');
    LeadsChar(At(VersionSlash, r), '/');
    LeadsThen(s, "H", At(VersionT1, r), "T", At(VersionT2, r));
    LeadsThen(s, "HT", At(VersionT2, r), "T", At(VersionP, r));
    LeadsThen(s, "HTT", At(VersionP, r), "P", At(VersionSlash, r));
    LeadsThen(s, "HTTP", At(VersionSlash, r), "/", At(MajorStart, r.(major := 0, minor := 0)));
  }

  lemma LeadsDigits(s: Snapshot, digits: string) returns (t: Snapshot)
    requires (s.state == MajorStart && s.request.major == 0) || (s.state == MinorStart && s.request.minor == 0)
    requires Digits(digits)
    ensures Leads(s, digits, t)
    ensures t == if s.state == MajorStart then At(Major, s.request.(major := Number(digits)))
                 else At(Minor, s.request.(minor := Number(digits)))
  {
    t := LeadsCharKept(s, digits);
    assert Number([digits[0]]) == DigitValue(digits[0]) by {
      assert [digits[0]][..0] == [];
    }
    NumberFromIs([digits[0]], digits[1..]);
    assert [digits[0]] + digits[1..] == digits;
  }

  lemma LeadsVersion(r: RequestData, major: string, minor: string)
    requires Digits(major) && Digits(minor)
    ensures Leads(At(VersionH, r), "HTTP/" + major + "." + minor + "\r\n",
                  At(HeaderLineStart, r.(major := Number(major), minor := Number(minor))))
  {
    var s := At(VersionH, r);
    LeadsHttp(r);
    var a := LeadsDigits(At(MajorStart, r.(major := 0, minor := 0)), major);
    LeadsThen(s, "HTTP/", At(MajorStart, r.(major := 0, minor := 0)), major, a);
    LeadsChar(a, '.');
    var b := Step(a, '.').after;
    LeadsThen(s, "HTTP/" + major, a, ".", b);
    var c := LeadsDigits(b, minor);
    LeadsThen(s, "HTTP/" + major + ".", b, minor, c);
    LeadsCrlf(c);
    LeadsThen(s, "HTTP/" + major + "." + minor, c, "\r\n", At(HeaderLineStart, c.request));
  }

  // The three places where a line ends.
  lemma LeadsCrlf(s: Snapshot)
    requires s.Valid() && s.state in {Minor, HeaderValue, HeaderLws}
    ensures Leads(s, "\r\n", At(HeaderLineStart, s.request))
  {
    LeadsChar(s, '\r');
    var t := Step(s, '\r').after;
    LeadsChar(t, '\n');
    LeadsThen(s, "\r", t, "\n", At(HeaderLineStart, s.request));
  }

  lemma LeadsLine(verb: string, uri: string, major: string, minor: string)
    requires Token(verb) && UriText(uri) && Digits(major) && Digits(minor)
    ensures Leads(FRESH, RenderLine(verb, uri, major, minor),
                  At(HeaderLineStart, RequestData(verb, uri, Number(major), Number(minor), [])))
  {
    LeadsVerb(verb);
    var r := EMPTY_REQUEST.(verb := verb);
    LeadsUri(r, uri);
    LeadsThen(FRESH, verb + " ", At(Uri, r), uri + " ", At(VersionH, r.(uri := uri)));
    LeadsVersion(r.(uri := uri), major, minor);
    var version := "HTTP/" + major + "." + minor + "\r\n";
    LeadsThen(FRESH, verb + " " + (uri + " "), At(VersionH, r.(uri := uri)), version,
              At(HeaderLineStart, RequestData(verb, uri, Number(major), Number(minor), [])));
    assert verb + " " + (uri + " ") + version == RenderLine(verb, uri, major, minor);
  }

  lemma LeadsFold(r: RequestData, f: Fold)
    requires r.headers != [] && FoldOk(f)
    ensures Leads(At(HeaderLineStart, r), RenderFold(f), At(HeaderLineStart, AppendValue(r, f.text)))
  {
    var s := At(HeaderLineStart, r);
    var t := LeadsCharKept(s, f.lead);
    assert t == At(HeaderLws, r);
    var u := t;
    if f.text == [] {
      ExtendEmpty(At(HeaderValue, r));
      assert f.lead + f.text == f.lead;
    } else {
      u := LeadsCharKept(t, f.text);
      ExtendFirst(At(HeaderValue, r), f.text);
      LeadsThen(s, f.lead, t, f.text, u);
    }
    assert u.request == AppendValue(r, f.text);
    LeadsCrlf(u);
    LeadsThen(s, f.lead + f.text, u, "\r\n", At(HeaderLineStart, AppendValue(r, f.text)));
  }

  lemma {:induction false} LeadsFolds(r: RequestData, folds: seq<Fold>)
    requires FoldsOk(folds) && (folds != [] ==> r.headers != [])
    ensures Leads(At(HeaderLineStart, r), RenderFolds(folds),
                  At(HeaderLineStart, if folds == [] then r else AppendValue(r, Joined(folds))))
    decreases folds
  {
    if folds != [] {
      var s, first := At(HeaderLineStart, r), AppendValue(r, folds[0].text);
      LeadsFold(r, folds[0]);
      LeadsFolds(first, folds[1..]);
      AppendTwice(r, folds[0].text, Joined(folds[1..]));
      if folds[1..] == [] {
        assert folds[0].text + "" == folds[0].text;
      }
      LeadsThen(s, RenderFold(folds[0]), At(HeaderLineStart, first), RenderFolds(folds[1..]),
                At(HeaderLineStart, AppendValue(r, Joined(folds))));
    }
  }

  lemma AppendTwice(r: RequestData, a: string, b: string)
    requires r.headers != []
    ensures AppendValue(AppendValue(r, a), b) == AppendValue(r, a + b)
  {
    var last := |r.headers| - 1;
    assert r.headers[last].value + a + b == r.headers[last].value + (a + b);
  }

  lemma LeadsName(r: RequestData, name: string)
    requires Token(name)
    ensures Leads(At(HeaderLineStart, r), name, At(HeaderName, r.(headers := r.headers + [Header(name, "")])))
  {
    var hs := r.headers;
    var named := LeadsCharKept(At(HeaderLineStart, r), name);
    assert [name[0]] + name[1..] == name;
    assert (hs + [Header([name[0]], "")])[|hs| := Header(name, "")] == hs + [Header(name, "")];
  }

  lemma LeadsColon(r: RequestData)
    requires r.headers != []
    ensures Leads(At(HeaderName, r), ": ", At(HeaderValue, r))
  {
    LeadsChar(At(HeaderName, r), ':');
    LeadsChar(At(SpaceBeforeValue, r), ' ');
    LeadsThen(At(HeaderName, r), ":", At(SpaceBeforeValue, r), " ", At(HeaderValue, r));
  }

  lemma LeadsValue(r: RequestData, hs: seq<Header>, name: string, value: string)
    requires r.headers == hs + [Header(name, "")] && ValueText(value)
    ensures Leads(At(HeaderValue, r), value, At(HeaderValue, r.(headers := hs + [Header(name, value)])))
  {
    LeadsKept(At(HeaderValue, r), value);
    assert "" + value == value;
    assert (hs + [Header(name, "")])[|hs| := Header(name, value)] == hs + [Header(name, value)];
  }

  lemma LeadsFieldLine(r: RequestData, f: Field)
    requires FieldOk(f)
    ensures Leads(At(HeaderLineStart, r), RenderFieldLine(f),
                  At(HeaderLineStart, r.(headers := r.headers + [Header(f.name, f.first)])))
  {
    var s, hs := At(HeaderLineStart, r), r.headers;
    var named := r.(headers := hs + [Header(f.name, "")]);
    var full := r.(headers := hs + [Header(f.name, f.first)]);
    LeadsName(r, f.name);
    LeadsColon(named);
    LeadsThen(s, f.name, At(HeaderName, named), ": ", At(HeaderValue, named));
    LeadsValue(named, hs, f.name, f.first);
    LeadsThen(s, f.name + ": ", At(HeaderValue, named), f.first, At(HeaderValue, full));
    LeadsCrlf(At(HeaderValue, full));
    LeadsThen(s, f.name + ": " + f.first, At(HeaderValue, full), "\r\n", At(HeaderLineStart, full));
  }

  lemma LeadsField(r: RequestData, f: Field)
    requires FieldOk(f)
    ensures Leads(At(HeaderLineStart, r), RenderFieldLine(f) + RenderFolds(f.folds),
                  At(HeaderLineStart, r.(headers := r.headers + [FieldHeader(f)])))
  {
    var named := r.(headers := r.headers + [Header(f.name, f.first)]);
    var done := r.(headers := r.headers + [FieldHeader(f)]);
    LeadsFieldLine(r, f);
    LeadsFolds(named, f.folds);
    assert (r.headers + [Header(f.name, f.first)])[|r.headers| := FieldHeader(f)] == r.headers + [FieldHeader(f)];
    assert f.first + "" == f.first;
    LeadsThen(At(HeaderLineStart, r), RenderFieldLine(f), At(HeaderLineStart, named),
              RenderFolds(f.folds), At(HeaderLineStart, done));
  }

  lemma HeadersInFront(hs: seq<Header>, fields: seq<Field>)
    requires fields != []
    ensures hs + [FieldHeader(fields[0])] + FieldHeaders(fields[1..]) == hs + FieldHeaders(fields)
  {
  }

  lemma {:induction false} LeadsFields(r: RequestData, fields: seq<Field>)
    requires FieldsOk(fields)
    ensures Leads(At(HeaderLineStart, r), RenderFields(fields),
                  At(HeaderLineStart, r.(headers := r.headers + FieldHeaders(fields))))
    decreases fields
  {
    if fields == [] {
      assert r.headers + [] == r.headers;
    } else {
      var f := fields[0];
      var next := r.(headers := r.headers + [FieldHeader(f)]);
      LeadsField(r, f);
      LeadsFields(next, fields[1..]);
      HeadersInFront(r.headers, fields);
      LeadsThen(At(HeaderLineStart, r), RenderFieldLine(f) + RenderFolds(f.folds), At(HeaderLineStart, next),
                RenderFields(fields[1..]), At(HeaderLineStart, r.(headers := r.headers + FieldHeaders(fields))));
    }
  }

  lemma BlankLineAccepts(r: RequestData, rest: string)
    ensures Run(At(HeaderLineStart, r), "\r\n" + rest) == Parsed(Accepted, 2, At(Newline3, r))
  {
    var text := "\r\n" + rest;
    assert text[0] == '\r' && text[1..][0] == '\n';
  }

  // A sentence is accepted after its last character, with the request it means, whatever follows.
  lemma SentenceAccepted(t: Sentence, rest: string)
    requires WellFormed(t)
    ensures Run(FRESH, Render(t) + rest) == Parsed(Accepted, |Render(t)|, At(Newline3, Meaning(t)))
  {
    var line, fields := RenderLine(t.verb, t.uri, t.major, t.minor), RenderFields(t.fields);
    var r := RequestData(t.verb, t.uri, Number(t.major), Number(t.minor), []);
    LeadsLine(t.verb, t.uri, t.major, t.minor);
    LeadsFields(r, t.fields);
    assert [] + FieldHeaders(t.fields) == FieldHeaders(t.fields);
    LeadsThen(FRESH, line, At(HeaderLineStart, r), fields, At(HeaderLineStart, Meaning(t)));
    BlankLineAccepts(Meaning(t), rest);
    RunAppend(FRESH, line + fields, "\r\n" + rest);
    assert Render(t) + rest == line + fields + ("\r\n" + rest);
  }

  lemma LineWrittenOut(verb: string, uri: string)
    ensures RenderLine(verb, uri, "1", "10") == verb + " " + uri + " HTTP/1.10\r\n"
  {
    assert " " + "HTTP/" + "1" + "." + "10" + "\r\n" == " HTTP/1.10\r\n";
    assert verb + " " + uri + (" " + "HTTP/" + "1" + "." + "10" + "\r\n")
        == verb + " " + uri + " " + "HTTP/" + "1" + "." + "10" + "\r\n";
  }

  lemma FieldWrittenOut(name: string, first: string, more: string)
    ensures var f := Field(name, first, [Fold("\t", more)]);
            && RenderFields([f]) == name + ": " + first + "\r\n" + ("\t" + more + "\r\n")
            && FieldHeaders([f]) == [Header(name, first + more)]
  {
    var f := Field(name, first, [Fold("\t", more)]);
    assert f.folds[1..] == [] && [f][1..] == [];
    assert RenderFolds(f.folds) == "\t" + more + "\r\n";
    assert Joined(f.folds) == more;
  }

  lemma TenIsTen()
    ensures Number("1") == 1 && Number("10") == 10
  {
    assert "1"[..0] == "" && "10"[..1] == "1";
    assert Number("1") == Number("") * 10 + 1;
  }

  // A request written out, with a two-digit version number and a continuation line.
  lemma RequestWrittenOut(verb: string, uri: string, name: string, first: string, more: string, rest: string)
    requires Token(verb) && UriText(uri) && Token(name) && ValueText(first) && ValueText(more)
    requires more != [] ==> more[0] != ' '
    ensures var text := verb + " " + uri + " HTTP/1.10\r\n"
                        + (name + ": " + first + "\r\n" + ("\t" + more + "\r\n")) + "\r\n";
            Run(FRESH, text + rest)
            == Parsed(Accepted, |text|, At(Newline3, RequestData(verb, uri, 1, 10, [Header(name, first + more)])))
  {
    var t := Sentence(verb, uri, "1", "10", [Field(name, first, [Fold("\t", more)])]);
    LineWrittenOut(verb, uri);
    FieldWrittenOut(name, first, more);
    TenIsTen();
    SentenceAccepted(t, rest);
  }
}
