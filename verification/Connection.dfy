// Connection::handle_read (src/GUI/Connection.cpp): one parser and one request are fed read after read.
module Connection {
  import opened Common
  import opened RequestParser
  import opened RequestSoundness

  // What the connection does next.
  datatype Pending = Reading | HandlingRequest | ReplyingBadRequest | Dropped

  class Connection {
    const requestParser: RequestParser
    const request: Request
    var pending: Pending
    ghost var received: string      // the bytes of all reads so far
    ghost var consumed: nat

    constructor ()
      ensures Valid() && View() == FRESH && pending == Reading && received == [] && consumed == 0
      ensures fresh(requestParser) && fresh(request)
    {
      requestParser := new RequestParser();
      request := new Request();
      pending, received, consumed := Reading, [], 0;
    }

    // The parser is where it gets by reading all bytes received at once.
    ghost predicate Valid()
      reads this, requestParser, request
    {
      var p := Run(FRESH, received);
      && View() == p.after && View().Valid() && consumed == p.consumed
      && (pending == Reading ==> p.verdict == Indeterminate)
      && (pending == HandlingRequest ==> p.verdict == Accepted)
      && (pending == ReplyingBadRequest ==> p.verdict == Rejected)
    }

    function View(): Snapshot
      reads requestParser, request
    {
      requestParser.View(request)
    }

    // After any reads without an error the request is handled exactly if the bytes received begin with a sentence of
    // the grammar, which is then what was consumed and the request what it denotes; more is read exactly if they are
    // a proper prefix of one; and otherwise, only then, the reply is bad_request. The bytes of a read beyond the end
    // of the request are ignored.
    method HandleRead(error: bool, buffer: string)
      requires Valid() && pending == Reading
      modifies this, requestParser, request
      ensures Valid()
      ensures error ==> pending == Dropped && received == old(received) && View() == old(View())
      ensures !error ==>
                && received == old(received) + buffer && consumed <= |received|
                && (pending == HandlingRequest <==> exists n :: 0 <= n <= |received| && IsSentence(received[..n]))
                && (pending == Reading <==> ProperPrefixOfSentence(received))
                && (pending == ReplyingBadRequest <==> pending != HandlingRequest && pending != Reading)
                && (pending == HandlingRequest ==> Denotes(received[..consumed], request.View()))
    {
      if !error {
        ReadOnWith(received, buffer);
        received := received + buffer;
        VerdictsAreExact(received);
        var result, used := requestParser.Parse(request, buffer);
        consumed := consumed + used;
        if result == Accepted {
          pending := HandlingRequest;
        } else if result == Rejected {
          pending := ReplyingBadRequest;
        } else {
          pending := Reading;
        }
      } else {
        pending := Dropped;
      }
    }
  }

  lemma ReadOnWith(before: string, buffer: string)
    requires Run(FRESH, before).verdict == Indeterminate
    ensures var p := Run(Run(FRESH, before).after, buffer);
            Run(FRESH, before + buffer) == p.(consumed := Run(FRESH, before).consumed + p.consumed)
  {
    RunAppend(FRESH, before, buffer);
  }

  // The reads of one connection in their order; after a verdict no further read is started.
  function ReadAll(s: Snapshot, chunks: seq<string>): (p: Parsed)
    requires s.Valid()
    ensures p.after.Valid()
    decreases |chunks|
  {
    if chunks == [] then Parsed(Indeterminate, 0, s)
    else
      var first := Run(s, chunks[0]);
      if first.verdict != Indeterminate then first
      else
        var rest := ReadAll(first.after, chunks[1..]);
        rest.(consumed := first.consumed + rest.consumed)
  }

  // However the bytes are split into reads, the verdict, the bytes consumed, the state and the request are
  // those of parsing them at once.
  lemma {:induction false} SplitDoesNotMatter(s: Snapshot, chunks: seq<string>)
    requires s.Valid()
    ensures ReadAll(s, chunks) == Run(s, Flatten(chunks))
    decreases |chunks|
  {
    if chunks != [] {
      RunAppend(s, chunks[0], Flatten(chunks[1..]));
      var first := Run(s, chunks[0]);
      if first.verdict == Indeterminate {
        SplitDoesNotMatter(first.after, chunks[1..]);
      }
    }
  }
}
