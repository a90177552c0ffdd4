// The header layout Reply::to_buffers writes (src/GUI/Reply.cpp), read back by the request parser.
module Printing {
  import opened Common
  import opened RequestParser
  import opened RequestGrammar
  import opened RequestLanguage
  import opened Connection

  // Fields without continuation lines.
  function PlainFields(headers: seq<Header>): (fields: seq<Field>)
    ensures |fields| == |headers|
    ensures forall i :: 0 <= i < |headers| ==> fields[i] == Field(headers[i].name, headers[i].value, [])
  {
    seq(|headers|, i requires 0 <= i < |headers| => Field(headers[i].name, headers[i].value, []))
  }

  ghost predicate PrintableHeaders(headers: seq<Header>) {
    forall i :: 0 <= i < |headers| ==> Token(headers[i].name) && ValueText(headers[i].value)
  }

  lemma {:induction false} RenderFieldsAppend(a: seq<Field>, b: seq<Field>)
    ensures RenderFields(a + b) == RenderFields(a) + RenderFields(b)
  {
    if a == [] {
      assert a + b == b;
    } else {
      assert (a + b)[1..] == a[1..] + b && (a + b)[0] == a[0];
      RenderFieldsAppend(a[1..], b);
      var front := RenderFieldLine(a[0]) + RenderFolds(a[0].folds);
      assert front + (RenderFields(a[1..]) + RenderFields(b)) == front + RenderFields(a[1..]) + RenderFields(b);
    }
  }

  lemma PrintOneMore(headers: seq<Header>, i: nat)
    requires i < |headers|
    ensures RenderFields(PlainFields(headers[..i + 1]))
         == RenderFields(PlainFields(headers[..i])) + (headers[i].name + ": " + headers[i].value + "\r\n")
  {
    var f := Field(headers[i].name, headers[i].value, []);
    assert PlainFields(headers[..i + 1]) == PlainFields(headers[..i]) + [f];
    RenderFieldsAppend(PlainFields(headers[..i]), [f]);
    assert RenderFields([f]) == RenderFieldLine(f) + "" + "";
  }

  lemma FlattenLine(before: seq<string>, h: Header)
    ensures Flatten(before + [h.name] + [": "] + [h.value] + ["\r\n"])
         == Flatten(before) + (h.name + ": " + h.value + "\r\n")
  {
    FlattenAppend(before + [h.name] + [": "] + [h.value], ["\r\n"]);
    FlattenAppend(before + [h.name] + [": "], [h.value]);
    FlattenAppend(before + [h.name], [": "]);
    FlattenAppend(before, [h.name]);
  }

  lemma ThreeParts(whole: string, front: string, text: string, line: string)
    requires whole == front + text + line
    ensures whole == front + (text + line)
  {
  }

  lemma PrintStep(buffers: seq<string>, front: string, headers: seq<Header>, i: nat)
    requires i < |headers| && Flatten(buffers) == front + RenderFields(PlainFields(headers[..i]))
    ensures var h := headers[i];
            Flatten(buffers + [h.name] + [": "] + [h.value] + ["\r\n"])
            == front + RenderFields(PlainFields(headers[..i + 1]))
  {
    var h := headers[i];
    FlattenLine(buffers, h);
    PrintOneMore(headers, i);
    ThreeParts(Flatten(buffers + [h.name] + [": "] + [h.value] + ["\r\n"]), front,
               RenderFields(PlainFields(headers[..i])), h.name + ": " + h.value + "\r\n");
  }

  class Reply {
    var statusLine: string
    var headers: seq<Header>
    var content: string

    constructor (statusLine: string, headers: seq<Header>, content: string)
      ensures this.statusLine == statusLine && this.headers == headers && this.content == content
    {
      this.statusLine, this.headers, this.content := statusLine, headers, content;
    }

    method ToBuffers() returns (buffers: seq<string>)
      ensures Flatten(buffers) == statusLine + RenderFields(PlainFields(headers)) + "\r\n" + content
    {
      buffers := [statusLine];
      var i := 0;
      while i < |headers|
        invariant i <= |headers|
        invariant Flatten(buffers) == statusLine + RenderFields(PlainFields(headers[..i]))
      {
        var h := headers[i];
        PrintStep(buffers, statusLine, headers, i);
        buffers := buffers + [h.name] + [": "] + [h.value] + ["\r\n"];
        i := i + 1;
      }
      assert headers[..i] == headers;
      FlattenAppend(buffers, ["\r\n"]);
      buffers := buffers + ["\r\n"];
      FlattenAppend(buffers, [content]);
      buffers := buffers + [content];
    }
  }

  // ---- Reading back ----

  lemma {:induction false} PlainHeaders(headers: seq<Header>)
    ensures FieldHeaders(PlainFields(headers)) == headers
  {
    if headers != [] {
      var fields := PlainFields(headers);
      PlainHeaders(headers[1..]);
      assert fields[1..] == PlainFields(headers[1..]);
      assert FieldHeader(fields[0]) == headers[0] by {
        assert headers[0].value + "" == headers[0].value;
      }
    }
  }

  lemma FieldsAndBlankLine(r: RequestData, fields: seq<Field>, content: string)
    requires FieldsOk(fields)
    ensures var text := RenderFields(fields) + "\r\n";
            Run(At(HeaderLineStart, r), text + content)
            == Parsed(Accepted, |text|, At(Newline3, r.(headers := r.headers + FieldHeaders(fields))))
  {
    var text, tail := RenderFields(fields), "\r\n" + content;
    var done := r.(headers := r.headers + FieldHeaders(fields));
    LeadsFields(r, fields);
    BlankLineAccepts(done, content);
    assert text + "\r\n" + content == text + tail;
    RunAppend(At(HeaderLineStart, r), text, tail);
  }

  // What to_buffers prints after the status line, the parser's header states read back: the same headers in
  // order, and nothing of the content.
  lemma HeadersReadBack(r: RequestData, headers: seq<Header>, content: string)
    requires PrintableHeaders(headers)
    ensures var printed := RenderFields(PlainFields(headers)) + "\r\n";
            Run(At(HeaderLineStart, r), printed + content)
            == Parsed(Accepted, |printed|, At(Newline3, r.(headers := r.headers + headers)))
  {
    PlainHeaders(headers);
    FieldsAndBlankLine(r, PlainFields(headers), content);
  }

  function Decimal(n: nat): string {
    if n < 10 then [('0' as int + n) as char] else Decimal(n / 10) + [('0' as int + n % 10) as char]
  }

  lemma {:induction false} DecimalReadsBack(n: nat)
    ensures Digits(Decimal(n)) && Number(Decimal(n)) == n
  {
    var last := ('0' as int + n % 10) as char;
    assert IsDigit(last) && DigitValue(last) == n % 10;
    if n < 10 {
      assert Decimal(n) == [last] && Decimal(n)[..0] == [];
      assert Number([]) == 0;
    } else {
      DecimalReadsBack(n / 10);
      assert Decimal(n)[..|Decimal(n)| - 1] == Decimal(n / 10);
      assert n / 10 * 10 + n % 10 == n;
    }
  }

  ghost predicate Printable(r: RequestData) {
    Token(r.verb) && UriText(r.uri) && PrintableHeaders(r.headers)
  }

  function PrintRequest(r: RequestData): string {
    RenderLine(r.verb, r.uri, Decimal(r.major), Decimal(r.minor)) + RenderFields(PlainFields(r.headers)) + "\r\n"
  }

  // Printing a request and parsing it, whatever follows and however it is split into reads, gives it back.
  lemma RequestRoundTrip(r: RequestData, chunks: seq<string>, rest: string)
    requires Printable(r) && Flatten(chunks) == PrintRequest(r) + rest
    ensures ReadAll(FRESH, chunks) == Parsed(Accepted, |PrintRequest(r)|, At(Newline3, r))
  {
    SplitDoesNotMatter(FRESH, chunks);
    DecimalReadsBack(r.major);
    DecimalReadsBack(r.minor);
    PlainHeaders(r.headers);
    var t := Sentence(r.verb, r.uri, Decimal(r.major), Decimal(r.minor), PlainFields(r.headers));
    SentenceAccepted(t, rest);
    assert Meaning(t) == r;
  }
}
