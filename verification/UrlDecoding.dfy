// RequestHandler::url_decode and the path checks behind it (src/GUI/RequestHandler.cpp).
// Percent-encoding: section 2.1 of RFC 3986.
module UrlDecoding {
  import opened Common
  import opened RequestParser
  import opened Connection
  import opened Printing

  predicate IsHexDigit(c: char) {
    '0' <= c <= '9' || 'a' <= c <= 'f' || 'A' <= c <= 'F'
  }

  function HexValue(c: char): (v: nat)
    requires IsHexDigit(c)
    ensures v < 16
  {
    if c <= '9' then c as int - '0' as int
    else if c <= 'F' then c as int - 'A' as int + 10
    else c as int - 'a' as int + 10
  }

  // The digits by their tables.
  lemma HexDigitTables(c: char)
    ensures IsHexDigit(c) <==> c in "0123456789abcdef" || c in "0123456789ABCDEF"
    ensures IsHexDigit(c) ==> c == "0123456789abcdef"[HexValue(c)] || c == "0123456789ABCDEF"[HexValue(c)]
  {
  }

  // What extracting a hexadecimal integer from the two characters after a percent sign gives. For two
  // hexadecimal digits that is their value; the other cases are left to `lenient`, which stands for whatever
  // the stream extraction does with them.
  type Lenient = (char, char) -> Option<char>

  function HexByte(a: char, b: char, lenient: Lenient): Option<char> {
    if IsHexDigit(a) && IsHexDigit(b) then Some((16 * HexValue(a) + HexValue(b)) as char) else lenient(a, b)
  }

  // out, followed by the rest if that can be decoded.
  function Then(out: string, rest: Option<string>): Option<string> {
    if rest.None? then None else Some(out + rest.value)
  }

  function Decoded(input: string, lenient: Lenient): Option<string>
    decreases |input|
  {
    if input == [] then Some([])
    else if input[0] == '%' then
      if |input| < 3 then None
      else
        var c := HexByte(input[1], input[2], lenient);
        if c.None? then None else Then([c.value], Decoded(input[3..], lenient))
    else
      Then([if input[0] == '+' then ' ' else input[0]], Decoded(input[1..], lenient))
  }

  // How each character is decoded, with the digits by their tables.
  lemma DecodedFirst(c: char, rest: string, lenient: Lenient)
    requires c != '%'
    ensures Decoded([c] + rest, lenient) == Then(if c == '+' then " " else [c], Decoded(rest, lenient))
  {
    assert ([c] + rest)[1..] == rest;
  }

  lemma EscapeDecoded(high: nat, low: nat, upperFirst: bool, upperSecond: bool, rest: string, lenient: Lenient)
    requires high < 16 && low < 16
    ensures var a := if upperFirst then "0123456789ABCDEF"[high] else "0123456789abcdef"[high];
            var b := if upperSecond then "0123456789ABCDEF"[low] else "0123456789abcdef"[low];
            Decoded(['%', a, b] + rest, lenient) == Then([(16 * high + low) as char], Decoded(rest, lenient))
  {
    var a := if upperFirst then "0123456789ABCDEF"[high] else "0123456789abcdef"[high];
    var b := if upperSecond then "0123456789ABCDEF"[low] else "0123456789abcdef"[low];
    TableDigit(high, upperFirst);
    TableDigit(low, upperSecond);
    assert (['%', a, b] + rest)[3..] == rest;
  }

  lemma TableDigit(v: nat, upper: bool)
    requires v < 16
    ensures var c := if upper then "0123456789ABCDEF"[v] else "0123456789abcdef"[v]; IsHexDigit(c) && HexValue(c) == v
  {
  }

  lemma ThenOneMore(out: string, c: char, rest: Option<string>)
    ensures Then(out, Then([c], rest)) == Then(out + [c], rest)
  {
    if rest.Some? {
      assert out + ([c] + rest.value) == out + [c] + rest.value;
    }
  }

  // The loop skips its index over the two digits of an escape.
  method UrlDecode(input: string, lenient: Lenient) returns (ok: bool, out: string)
    ensures ok <==> Decoded(input, lenient).Some?
    ensures ok ==> out == Decoded(input, lenient).value
  {
    out := [];
    var i := 0;
    ghost var left := input;
    assert left == input[0..];
    assert Decoded(input, lenient).Some? ==> [] + Decoded(input, lenient).value == Decoded(input, lenient).value;
    while i < |input|
      invariant i <= |input| && left == input[i..]
      invariant Then(out, Decoded(left, lenient)) == Decoded(input, lenient)
      decreases |input| - i
    {
      var c := input[i];
      ghost var next := left[1..];
      if input[i] == '%' {
        if i + 3 <= |input| {
          var value := HexByte(input[i + 1], input[i + 2], lenient);
          if value.Some? {
            c := value.value;
            next := left[3..];
            i := i + 2;
          } else {
            return false, out;
          }
        } else {
          return false, out;
        }
      } else if input[i] == '+' {
        c := ' ';
      }
      ThenOneMore(out, c, Decoded(next, lenient));
      out := out + [c];
      i := i + 1;
      left := next;
    }
    assert out + [] == out;
    ok := true;
  }

  // ---- Percent-encoding ----

  // How one character is written: as itself, a space as a plus sign, or escaped with two digits, each of
  // which may be an upper-case or a lower-case letter.
  datatype Spelling = Plain | Plus | Escape(upperFirst: bool, upperSecond: bool)

  predicate Spells(how: Spelling, c: char) {
    match how
    case Plain => c != '%' && c != '+'
    case Plus => c == ' '
    case Escape(_, _) => c as int < 256
  }

  function HexDigit(v: nat, upper: bool): (c: char)
    requires v < 16
    ensures IsHexDigit(c) && HexValue(c) == v
  {
    if v < 10 then (('0' as int) + v) as char
    else if upper then ('A' as int + v - 10) as char
    else ('a' as int + v - 10) as char
  }

  function Spelled(c: char, how: Spelling): (text: string)
    requires Spells(how, c)
    ensures text != []
  {
    match how
    case Plain => [c]
    case Plus => "+"
    case Escape(u, v) => ['%', HexDigit(c as int / 16, u), HexDigit(c as int % 16, v)]
  }

  ghost predicate CanSpell(text: string, how: seq<Spelling>) {
    |how| == |text| && forall i :: 0 <= i < |text| ==> Spells(how[i], text[i])
  }

  function Encoded(text: string, how: seq<Spelling>): string
    requires CanSpell(text, how)
  {
    if text == [] then [] else Spelled(text[0], how[0]) + Encoded(text[1..], how[1..])
  }

  // Decoding inverts every encoding.
  lemma {:induction false} DecodeInvertsEncode(text: string, how: seq<Spelling>, lenient: Lenient)
    requires CanSpell(text, how)
    ensures Decoded(Encoded(text, how), lenient) == Some(text)
  {
    if text != [] {
      var first, rest := Spelled(text[0], how[0]), Encoded(text[1..], how[1..]);
      DecodeInvertsEncode(text[1..], how[1..], lenient);
      var whole := first + rest;
      assert whole[|first|..] == rest;
      if how[0].Escape? {
        assert whole[0] == '%' && whole[1] == first[1] && whole[2] == first[2];
        assert 16 * (text[0] as int / 16) + text[0] as int % 16 == text[0] as int;
      }
      assert [text[0]] + text[1..] == text;
    }
  }

  // What follows an encoding is decoded on its own.
  lemma {:induction false} DecodeGoesOn(text: string, how: seq<Spelling>, rest: string, lenient: Lenient)
    requires CanSpell(text, how)
    ensures Decoded(Encoded(text, how) + rest, lenient) == Then(text, Decoded(rest, lenient))
  {
    if text == [] {
      assert Encoded(text, how) + rest == rest;
      assert Decoded(rest, lenient).Some? ==> [] + Decoded(rest, lenient).value == Decoded(rest, lenient).value;
    } else {
      var first, more := Spelled(text[0], how[0]), Encoded(text[1..], how[1..]);
      DecodeGoesOn(text[1..], how[1..], rest, lenient);
      SpelledFirst(text[0], how[0], more + rest, lenient);
      assert first + more + rest == first + (more + rest);
      ThenTwice(text[0], text[1..], Decoded(rest, lenient));
      assert [text[0]] + text[1..] == text;
    }
  }

  lemma SpelledFirst(c: char, how: Spelling, rest: string, lenient: Lenient)
    requires Spells(how, c)
    ensures Decoded(Spelled(c, how) + rest, lenient) == Then([c], Decoded(rest, lenient))
  {
    var first := Spelled(c, how);
    var whole := first + rest;
    assert whole[|first|..] == rest;
    if how.Escape? {
      assert whole[0] == '%' && whole[1] == first[1] && whole[2] == first[2];
      assert 16 * (c as int / 16) + c as int % 16 == c as int;
    }
  }

  lemma ThenTwice(c: char, text: string, rest: Option<string>)
    ensures Then([c], Then(text, rest)) == Then([c] + text, rest)
  {
    if rest.Some? {
      assert [c] + (text + rest.value) == [c] + text + rest.value;
    }
  }

  // An escape cut off by the end fails the whole, and so does one that cannot be extracted, whatever follows it.
  lemma BadEscapeFails(text: string, how: seq<Spelling>, ending: string, lenient: Lenient)
    requires CanSpell(text, how) && ending != [] && ending[0] == '%'
    requires |ending| < 3 || HexByte(ending[1], ending[2], lenient).None?
    ensures Decoded(Encoded(text, how) + ending, lenient) == None
  {
    DecodeGoesOn(text, how, ending, lenient);
  }

  // Every percent sign the decoder meets has two hexadecimal digits behind it.
  predicate EscapesComplete(input: string)
    decreases |input|
  {
    input == [] ||
    if input[0] == '%' then
      |input| >= 3 && IsHexDigit(input[1]) && IsHexDigit(input[2]) && EscapesComplete(input[3..])
    else EscapesComplete(input[1..])
  }

  lemma HexDigitOf(c: char)
    requires IsHexDigit(c)
    ensures c == HexDigit(HexValue(c), c <= 'F')
  {
  }

  // And with complete escapes, what it decodes is only ever an encoding of the result.
  lemma {:induction false} DecodedIsEncoded(input: string, lenient: Lenient) returns (how: seq<Spelling>)
    requires EscapesComplete(input)
    ensures Decoded(input, lenient).Some?
    ensures var text := Decoded(input, lenient).value; CanSpell(text, how) && Encoded(text, how) == input
    decreases |input|
  {
    if input == [] {
      how := [];
    } else if input[0] == '%' {
      var a, b := input[1], input[2];
      HexDigitOf(a);
      HexDigitOf(b);
      var rest := DecodedIsEncoded(input[3..], lenient);
      how := [Escape(a <= 'F', b <= 'F')] + rest;
      var text := Decoded(input, lenient).value;
      var v := 16 * HexValue(a) + HexValue(b);
      assert v / 16 == HexValue(a) && v % 16 == HexValue(b);
      assert how[1..] == rest && text[1..] == Decoded(input[3..], lenient).value;
      assert Spelled(text[0], how[0]) == ['%', a, b];
      assert input == ['%', a, b] + input[3..];
    } else {
      var rest := DecodedIsEncoded(input[1..], lenient);
      how := [if input[0] == '+' then Plus else Plain] + rest;
      var text := Decoded(input, lenient).value;
      assert how[1..] == rest && text[1..] == Decoded(input[1..], lenient).value;
      assert Spelled(text[0], how[0]) == [input[0]];
      assert input == [input[0]] + input[1..];
    }
  }

  lemma {:induction false} EncodedIsComplete(text: string, how: seq<Spelling>)
    requires CanSpell(text, how)
    ensures EscapesComplete(Encoded(text, how))
  {
    if text != [] {
      var first, rest := Spelled(text[0], how[0]), Encoded(text[1..], how[1..]);
      EncodedIsComplete(text[1..], how[1..]);
      assert (first + rest)[|first|..] == rest;
    }
  }

  // Decoding agrees exactly with being an encoding.
  lemma DecodeIffEncoding(input: string, text: string, lenient: Lenient)
    ensures EscapesComplete(input) && Decoded(input, lenient) == Some(text)
            <==> exists how :: CanSpell(text, how) && Encoded(text, how) == input
  {
    if EscapesComplete(input) && Decoded(input, lenient) == Some(text) {
      var how := DecodedIsEncoded(input, lenient);
    }
    if how :| CanSpell(text, how) && Encoded(text, how) == input {
      DecodeInvertsEncode(text, how, lenient);
      EncodedIsComplete(text, how);
    }
  }

  // ---- The path of a request ----

  predicate HasDotDot(path: string) {
    exists i :: 0 <= i < |path| - 1 && path[i] == '.' && path[i + 1] == '.'
  }

  // The part of handle_request before a file or stream is looked up; None is the bad request reply.
  function RequestPath(uri: string, lenient: Lenient): Option<string> {
    var decoded := Decoded(uri, lenient);
    if decoded.None? then None
    else
      var path := decoded.value;
      if path == [] || path[0] != '/' || HasDotDot(path) then None
      else if path[|path| - 1] == '/' then Some(path + "index.html")
      else Some(path)
  }

  // The two dots wherever they stand.
  lemma HasDotDotIff(path: string)
    ensures HasDotDot(path) <==> exists a, b :: path == a + ".." + b
  {
    if i :| 0 <= i < |path| - 1 && path[i] == '.' && path[i + 1] == '.' {
      assert path == path[..i] + ".." + path[i + 2..];
    }
    if a, b :| path == a + ".." + b {
      assert path[|a|] == '.' && path[|a| + 1] == '.';
    }
  }

  // A path that may be asked for.
  ghost predicate Servable(path: string) {
    path != [] && path[0] == '/' && !exists a, b :: path == a + ".." + b
  }

  // A request that carries an encoded path, however it is spelled and split into reads, asks for that path, with
  // index.html added to a directory; and it is refused if the path is empty, relative or has two dots in a row.
  lemma PathArrives(path: string, how: seq<Spelling>, r: RequestData, chunks: seq<string>, rest: string,
                    lenient: Lenient)
    requires CanSpell(path, how) && r.uri == Encoded(path, how)
    requires Printable(r) && Flatten(chunks) == PrintRequest(r) + rest
    ensures var p := ReadAll(FRESH, chunks);
            && p.verdict == Accepted && p.consumed == |PrintRequest(r)|
            && Decoded(p.after.request.uri, lenient) == Some(path)
            && RequestPath(p.after.request.uri, lenient)
               == if !Servable(path) then None
                  else if path[|path| - 1] == '/' then Some(path + "index.html")
                  else Some(path)
  {
    RequestRoundTrip(r, chunks, rest);
    DecodeInvertsEncode(path, how, lenient);
    HasDotDotIff(path);
  }

  // A path that is looked up is absolute, does not end in a slash and holds no two dots in a row.
  lemma RequestPathShape(uri: string, lenient: Lenient)
    ensures var asked := RequestPath(uri, lenient);
            asked.Some? ==>
              && asked.value != [] && asked.value[0] == '/' && asked.value[|asked.value| - 1] != '/'
              && !HasDotDot(asked.value) && Decoded(uri, lenient).Some? && Decoded(uri, lenient).value <= asked.value
  {
    var asked := RequestPath(uri, lenient);
    if asked.Some? {
      var path := Decoded(uri, lenient).value;
      forall i | 0 <= i < |asked.value| - 1 ensures !(asked.value[i] == '.' && asked.value[i + 1] == '.') {
        if i < |path| - 1 {
          assert asked.value[i] == path[i] && asked.value[i + 1] == path[i + 1];
        }
      }
    }
  }
}
