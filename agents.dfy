/** `QueryAgent.route`: the classifier's one-line answer `Label,arg1,arg2` is
    split at every comma, its first piece is compared with the three action
    labels, and the matching branch decodes its arguments and calls one
    collaborator. Any other first piece hands the original query to the
    retrieval-augmented answerer. */
module Agents {
  import opened PyStr

  const GET_TIME: string := "Get_Time"
  const GET_STOCK_PRICE: string := "Get_Stock_Price"
  const SEND_WHATSAPP_MESSAGE: string := "Send_Whatsapp_Message"
  const MISCELLANEOUS: string := "Miscellaneous"

  /** The labels that select an action branch. */
  predicate IsActionLabel(s: string)
  {
    s == GET_TIME || s == GET_STOCK_PRICE || s == SEND_WHATSAPP_MESSAGE
  }

  /** What the classifier is instructed to answer for each kind of query. */
  datatype Classification =
    | TimeQuery(ianaZone: string)
    | StockQuery(symbol: string)
    | WhatsappQuery(name: string, message: string)
    | OtherQuery

  /** The answer line the classifier prompt asks for. */
  function Format(c: Classification): (line: string)
    ensures ',' in line <==> !c.OtherQuery?
  {
    match c
    case TimeQuery(zone) => GET_TIME + "," + zone
    case StockQuery(symbol) => GET_STOCK_PRICE + "," + symbol
    case WhatsappQuery(name, message) => SEND_WHATSAPP_MESSAGE + "," + name + "," + message
    case OtherQuery => MISCELLANEOUS
  }

  /** The branch `route` takes, with its decoded arguments. */
  datatype Route =
    | TellTime(timezone: string)
    | QuoteStock(symbol: string)
    | SendMessage(name: string, number: string, message: string)
    | AskRag(query: string)

  /** The exceptions `route` raises itself: indexing a missing piece of the
      split answer, or looking up a name absent from the phone book. */
  datatype RouteError = IndexError(index: nat) | KeyError(key: string)

  datatype Result<T> = Success(value: T) | Failure(error: RouteError)

  /** The price record returned by the stock collaborator; `price` is its
      text as the f-string renders it. */
  datatype Quote = Quote(name: string, price: string)

  /** The agent's collaborators, which the class refers to but does not
      define: the phone book and the functions it calls. */
  datatype Agent = Agent(
    phoneBook: map<string, string>,
    getTime: string -> string,
    getStockPrice: string -> Quote,
    invokeRag: string -> string)

  /** One call to a collaborator; `SendWhatsappMssg` is the only one with an
      effect outside the agent. */
  datatype Call =
    | GetTime(timezone: string)
    | GetStockPrice(symbol: string)
    | SendWhatsappMssg(message: string, number: string)
    | InvokeRag(query: string)

  /** The calls made, in order, and the reply or the exception raised. */
  datatype Outcome = Outcome(calls: seq<Call>, reply: Result<string>)

  /** Decodes the classifier's answer into a route, or the exception that
      `route` raises before calling anything. */
  function Decode(phoneBook: map<string, string>, answer: string, query: string): (r: Result<Route>)
    ensures r.Success? && r.value.SendMessage? ==>
              r.value.name in phoneBook && phoneBook[r.value.name] == r.value.number
    ensures r.Success? && r.value.AskRag? ==> r.value.query == query
  {
    Dispatch(phoneBook, Split(answer, ','), query)
  }

  /** The `if`/`elif` chain of `route` over the comma-separated pieces: an
      exact comparison of the first piece with each action label in turn. */
  function Dispatch(phoneBook: map<string, string>, pieces: seq<string>, query: string): (r: Result<Route>)
    requires |pieces| >= 1
    ensures r.Success? && r.value.SendMessage? ==>
              r.value.name in phoneBook && phoneBook[r.value.name] == r.value.number
    ensures r.Success? && r.value.AskRag? ==> r.value.query == query
  {
    if pieces[0] == GET_TIME then
      if |pieces| < 2 then Failure(IndexError(1))
      else Success(TellTime(Strip(pieces[1])))
    else if pieces[0] == GET_STOCK_PRICE then
      if |pieces| < 2 then Failure(IndexError(1))
      else Success(QuoteStock(Strip(pieces[1])))
    else if pieces[0] == SEND_WHATSAPP_MESSAGE then
      if |pieces| < 2 then Failure(IndexError(1))
      else
        var name := Capitalize(Strip(pieces[1]));
        if name !in phoneBook then Failure(KeyError(name))
        else if |pieces| < 3 then Failure(IndexError(2))
        else Success(SendMessage(name, phoneBook[name], Strip(pieces[2])))
    else Success(AskRag(query))
  }

  /** Carries out a decoded route: one collaborator call and the reply built
      from its result. */
  function Perform(agent: Agent, route: Route): (o: Outcome)
    ensures |o.calls| == 1 && o.reply.Success?
  {
    match route
    case TellTime(zone) =>
      Outcome([GetTime(zone)], Success("The time is: " + agent.getTime(zone)))
    case QuoteStock(symbol) =>
      var quote := agent.getStockPrice(symbol);
      Outcome([GetStockPrice(symbol)],
              Success("The price of " + quote.name + "'s stock is currently USD " + quote.price))
    case SendMessage(name, number, message) =>
      Outcome([SendWhatsappMssg(message, number)],
              Success("Message " + message + " sent successfully to " + name))
    case AskRag(query) =>
      Outcome([InvokeRag(query)], Success(agent.invokeRag(query)))
  }

  /** `QueryAgent.route(query)` given the classifier's `answer` to it. */
  function RouteQuery(agent: Agent, answer: string, query: string): (o: Outcome)
    ensures o.reply.Failure? <==> o.calls == []
    ensures |o.calls| <= 1
  {
    match Decode(agent.phoneBook, answer, query)
    case Failure(e) => Outcome([], Failure(e))
    case Success(route) => Perform(agent, route)
  }

  // -----------------------------------------------------------------------
  // Label selection

  /** A comma-free first field followed by a comma is the first piece. */
  lemma LabelPieces(tag: string, rest: string)
    requires ',' !in tag
    ensures Split(tag + "," + rest, ',') == [tag] + Split(rest, ',')
  {
    assert tag + "," + rest == tag + [','] + rest;
    SplitConcat(tag, rest, ',');
    SplitWithoutSeparator(tag, ',');
  }

  lemma ActionLabelsHaveNoComma()
    ensures ',' !in GET_TIME && ',' !in GET_STOCK_PRICE && ',' !in SEND_WHATSAPP_MESSAGE
    ensures ',' !in MISCELLANEOUS
  {
  }

  /** The three action labels are pairwise different. */
  lemma ActionLabelsDistinct()
    ensures GET_TIME != GET_STOCK_PRICE && GET_TIME != SEND_WHATSAPP_MESSAGE
    ensures GET_STOCK_PRICE != SEND_WHATSAPP_MESSAGE
  {
    assert |GET_TIME| == 8 && |GET_STOCK_PRICE| == 15 && |SEND_WHATSAPP_MESSAGE| == 21;
  }

  lemma ActionLabelsHaveNoLineBreak()
    ensures '\n' !in GET_TIME && '\n' !in GET_STOCK_PRICE && '\n' !in SEND_WHATSAPP_MESSAGE
  {
  }

  /** The first piece is a given comma-free label exactly when the answer is
      that label, alone or followed by a comma. */
  lemma FirstPieceIs(answer: string, tag: string)
    requires ',' !in tag
    ensures Split(answer, ',')[0] == tag <==> (answer == tag || tag + "," <= answer)
  {
    SplitFirstPiece(answer, ',');
    if answer == tag {
      SplitWithoutSeparator(answer, ',');
    } else if tag + "," <= answer {
      assert answer == tag + [','] + answer[|tag| + 1..];
      SplitConcat(tag, answer[|tag| + 1..], ',');
      SplitWithoutSeparator(tag, ',');
    }
  }

  /** The retrieval fallback runs, with the query unchanged, exactly when the
      first piece is none of the three action labels. */
  lemma FallbackExactlyForOtherLabels(phoneBook: map<string, string>, answer: string, query: string)
    ensures Decode(phoneBook, answer, query) == Success(AskRag(query))
            <==> !IsActionLabel(Split(answer, ',')[0])
  {
    ActionLabelsDistinct();
    assert Decode(phoneBook, answer, query) == Dispatch(phoneBook, Split(answer, ','), query);
  }

  /** Labels are compared before any stripping: an answer that begins with
      whitespace always falls back to retrieval. */
  lemma LeadingWhitespaceFallsBack(agent: Agent, answer: string, query: string)
    requires |answer| > 0 && IsSpace(answer[0])
    ensures RouteQuery(agent, answer, query) == Outcome([InvokeRag(query)], Success(agent.invokeRag(query)))
  {
    var first := Split(answer, ',')[0];
    assert |first| > 0 && first[0] == answer[0] by {
      SplitFirstPiece(answer, ',');
    }
    SpaceStartIsNoLabel(first);
    FallbackExactlyForOtherLabels(agent.phoneBook, answer, query);
  }

  /** No action label starts with whitespace. */
  lemma SpaceStartIsNoLabel(first: string)
    requires |first| > 0 && IsSpace(first[0])
    ensures !IsActionLabel(first)
  {
  }

  /** A label followed by a line break instead of a comma is not recognised
      either. */
  lemma LabelWithLineBreakFallsBack(agent: Agent, tag: string, rest: string, query: string)
    requires IsActionLabel(tag)
    ensures RouteQuery(agent, tag + "\n" + rest, query)
            == Outcome([InvokeRag(query)], Success(agent.invokeRag(query)))
  {
    var answer := tag + "\n" + rest;
    var first := Split(answer, ',')[0];
    assert !IsActionLabel(first) by {
      SplitFirstPiece(answer, ',');
      ActionLabelsHaveNoComma();
      ActionLabelsHaveNoLineBreak();
      assert answer[..|tag| + 1] == tag + "\n";
      assert |first| > |tag| && first[|tag|] == '\n';
    }
    FallbackExactlyForOtherLabels(agent.phoneBook, answer, query);
  }

  /** The `Miscellaneous` answer falls back to retrieval with the query. */
  lemma MiscellaneousFallsBack(agent: Agent, query: string)
    ensures RouteQuery(agent, Format(OtherQuery), query)
            == Outcome([InvokeRag(query)], Success(agent.invokeRag(query)))
  {
    ActionLabelsHaveNoComma();
    UnlabelledLineFallsBack(agent, MISCELLANEOUS, query);
  }

  /** A comma-free answer that is not an action label falls back to
      retrieval with the query. */
  lemma UnlabelledLineFallsBack(agent: Agent, answer: string, query: string)
    requires ',' !in answer && !IsActionLabel(answer)
    ensures RouteQuery(agent, answer, query)
            == Outcome([InvokeRag(query)], Success(agent.invokeRag(query)))
  {
    SplitWithoutSeparator(answer, ',');
    FallbackExactlyForOtherLabels(agent.phoneBook, answer, query);
  }

  // -----------------------------------------------------------------------
  // Arguments of the action branches

  /** `Get_Time` passes the stripped second piece and prefixes the reply. */
  lemma TimeBranch(agent: Agent, answer: string, query: string)
    requires Split(answer, ',')[0] == GET_TIME && |Split(answer, ',')| >= 2
    ensures var zone := Strip(Split(answer, ',')[1]);
            RouteQuery(agent, answer, query)
            == Outcome([GetTime(zone)], Success("The time is: " + agent.getTime(zone)))
  {
    var zone := Strip(Split(answer, ',')[1]);
    DecodeTime(agent.phoneBook, answer, query);
    assert RouteQuery(agent, answer, query) == Perform(agent, TellTime(zone));
  }

  /** `Get_Stock_Price` passes the stripped second piece and reports the name
      and price it gets back. */
  lemma StockBranch(agent: Agent, answer: string, query: string)
    requires Split(answer, ',')[0] == GET_STOCK_PRICE && |Split(answer, ',')| >= 2
    ensures var symbol := Strip(Split(answer, ',')[1]);
            var quote := agent.getStockPrice(symbol);
            RouteQuery(agent, answer, query)
            == Outcome([GetStockPrice(symbol)],
                       Success("The price of " + quote.name + "'s stock is currently USD " + quote.price))
  {
    var symbol := Strip(Split(answer, ',')[1]);
    DecodeStock(agent.phoneBook, answer, query);
    assert RouteQuery(agent, answer, query) == Perform(agent, QuoteStock(symbol));
  }

  /** A recognised label with no comma after it raises an index error before
      any collaborator is called. */
  lemma BareLabelFails(agent: Agent, tag: string, query: string)
    requires IsActionLabel(tag)
    ensures RouteQuery(agent, tag, query) == Outcome([], Failure(IndexError(1)))
  {
    ActionLabelsHaveNoComma();
    ActionLabelsDistinct();
    SplitWithoutSeparator(tag, ',');
    assert Decode(agent.phoneBook, tag, query) == Dispatch(agent.phoneBook, [tag], query);
  }

  /** The pieces after the third are never read: appending a comma and any
      text to an answer of three or more pieces changes nothing. */
  lemma TailIgnored(agent: Agent, answer: string, tail: string, query: string)
    requires |Split(answer, ',')| >= 3
    ensures RouteQuery(agent, answer + "," + tail, query) == RouteQuery(agent, answer, query)
  {
    var pieces := Split(answer, ',');
    var longer := Split(answer + "," + tail, ',');
    assert longer == pieces + Split(tail, ',') by {
      assert answer + "," + tail == answer + [','] + tail;
      SplitConcat(answer, tail, ',');
    }
    DispatchReadsThreePieces(agent.phoneBook, pieces, longer, query);
  }

  /** `Dispatch` looks at no piece after the third. */
  lemma DispatchReadsThreePieces(phoneBook: map<string, string>, xs: seq<string>, ys: seq<string>, query: string)
    requires |xs| >= 3 && |ys| >= 3 && xs[..3] == ys[..3]
    ensures Dispatch(phoneBook, xs, query) == Dispatch(phoneBook, ys, query)
  {
    assert xs[0] == ys[0] && xs[1] == ys[1] && xs[2] == ys[2] by {
      assert xs[..3][0] == xs[0] && xs[..3][1] == xs[1] && xs[..3][2] == xs[2];
    }
  }

  // -----------------------------------------------------------------------
  // Sending a message

  /** When the label is `Send_Whatsapp_Message`, the capitalised stripped
      name is in the phone book and a third piece exists, the message is sent
      once, with the stripped third piece, to that name's number, and the
      reply echoes the message and the name. `SendOnlyWhen` is the converse. */
  lemma SendBranch(agent: Agent, answer: string, query: string)
    requires Split(answer, ',')[0] == SEND_WHATSAPP_MESSAGE && |Split(answer, ',')| >= 3
    requires Capitalize(Strip(Split(answer, ',')[1])) in agent.phoneBook
    ensures var name := Capitalize(Strip(Split(answer, ',')[1]));
            var message := Strip(Split(answer, ',')[2]);
            RouteQuery(agent, answer, query)
            == Outcome([SendWhatsappMssg(message, agent.phoneBook[name])],
                       Success("Message " + message + " sent successfully to " + name))
  {
    DecodeSend(agent.phoneBook, answer, query);
  }

  /** A message is sent only in the case of `SendBranch`: any send that
      `route` makes has the label `Send_Whatsapp_Message`, a known
      capitalised stripped name and a third piece, and it sends the stripped
      third piece to that name's number. */
  lemma SendOnlyWhen(agent: Agent, answer: string, query: string, message: string, number: string)
    requires SendWhatsappMssg(message, number) in RouteQuery(agent, answer, query).calls
    ensures var pieces := Split(answer, ',');
            var name := Capitalize(Strip(pieces[1]));
            pieces[0] == SEND_WHATSAPP_MESSAGE && |pieces| >= 3
            && name in agent.phoneBook
            && number == agent.phoneBook[name] && message == Strip(pieces[2])
  {
    var pieces := Split(answer, ',');
    var decoded := Decode(agent.phoneBook, answer, query);
    assert decoded.Success? && RouteQuery(agent, answer, query) == Perform(agent, decoded.value);
    PerformSendsOnlyForSendRoute(agent, decoded.value, message, number);
    assert decoded == Dispatch(agent.phoneBook, pieces, query);
    DispatchSendRoute(agent.phoneBook, pieces, query);
  }

  /** Of the four routes, only the send route sends, and it sends its own
      message to its own number. */
  lemma PerformSendsOnlyForSendRoute(agent: Agent, route: Route, message: string, number: string)
    requires SendWhatsappMssg(message, number) in Perform(agent, route).calls
    ensures route == SendMessage(route.name, number, message)
  {
  }

  /** `Dispatch` yields the send route only for the send label with three
      pieces and a known name. */
  lemma DispatchSendRoute(phoneBook: map<string, string>, pieces: seq<string>, query: string)
    requires |pieces| >= 1
    requires Dispatch(phoneBook, pieces, query).Success?
    requires Dispatch(phoneBook, pieces, query).value.SendMessage?
    ensures var name := Capitalize(Strip(pieces[1]));
            pieces[0] == SEND_WHATSAPP_MESSAGE && |pieces| >= 3 && name in phoneBook
            && Dispatch(phoneBook, pieces, query) == Success(SendMessage(name, phoneBook[name], Strip(pieces[2])))
  {
    ActionLabelsDistinct();
  }

  /** The send route decoded from an answer with a known name and a
      message. */
  lemma DecodeSend(phoneBook: map<string, string>, answer: string, query: string)
    requires Split(answer, ',')[0] == SEND_WHATSAPP_MESSAGE && |Split(answer, ',')| >= 3
    requires Capitalize(Strip(Split(answer, ',')[1])) in phoneBook
    ensures var pieces := Split(answer, ',');
            var name := Capitalize(Strip(pieces[1]));
            Decode(phoneBook, answer, query) == Success(SendMessage(name, phoneBook[name], Strip(pieces[2])))
  {
    var pieces := Split(answer, ',');
    ActionLabelsDistinct();
    assert Decode(phoneBook, answer, query) == Dispatch(phoneBook, pieces, query);
  }

  /** The time route decoded from an answer with a second piece. */
  lemma DecodeTime(phoneBook: map<string, string>, answer: string, query: string)
    requires Split(answer, ',')[0] == GET_TIME && |Split(answer, ',')| >= 2
    ensures Decode(phoneBook, answer, query) == Success(TellTime(Strip(Split(answer, ',')[1])))
  {
    var pieces := Split(answer, ',');
    assert Decode(phoneBook, answer, query) == Dispatch(phoneBook, pieces, query);
  }

  /** The stock route decoded from an answer with a second piece. */
  lemma DecodeStock(phoneBook: map<string, string>, answer: string, query: string)
    requires Split(answer, ',')[0] == GET_STOCK_PRICE && |Split(answer, ',')| >= 2
    ensures Decode(phoneBook, answer, query) == Success(QuoteStock(Strip(Split(answer, ',')[1])))
  {
    var pieces := Split(answer, ',');
    ActionLabelsDistinct();
    assert Decode(phoneBook, answer, query) == Dispatch(phoneBook, pieces, query);
  }

  /** Only the capitalised stripped name decides the phone-book entry. */
  lemma DispatchSendNameKey(phoneBook: map<string, string>, xs: seq<string>, ys: seq<string>, query: string)
    requires |xs| == |ys| >= 2 && xs[0] == ys[0] == SEND_WHATSAPP_MESSAGE
    requires |xs| >= 3 ==> xs[2] == ys[2]
    requires Capitalize(Strip(xs[1])) == Capitalize(Strip(ys[1]))
    ensures Dispatch(phoneBook, xs, query) == Dispatch(phoneBook, ys, query)
  {
  }

  /** The phone-book lookup comes before the third piece is read: an unknown
      name raises a key error, with or without a message, and nothing is
      sent. */
  lemma UnknownContactFails(agent: Agent, answer: string, query: string)
    requires Split(answer, ',')[0] == SEND_WHATSAPP_MESSAGE && |Split(answer, ',')| >= 2
    requires Capitalize(Strip(Split(answer, ',')[1])) !in agent.phoneBook
    ensures RouteQuery(agent, answer, query)
            == Outcome([], Failure(KeyError(Capitalize(Strip(Split(answer, ',')[1])))))
  {
    ActionLabelsDistinct();
    assert Decode(agent.phoneBook, answer, query) == Dispatch(agent.phoneBook, Split(answer, ','), query);
  }

  /** A known name with no third piece raises an index error, after the
      lookup and before any send. */
  lemma MissingMessageFails(agent: Agent, name: string, query: string)
    requires ',' !in name
    requires Capitalize(Strip(name)) in agent.phoneBook
    ensures RouteQuery(agent, SEND_WHATSAPP_MESSAGE + "," + name, query)
            == Outcome([], Failure(IndexError(2)))
  {
    var answer := SEND_WHATSAPP_MESSAGE + "," + name;
    var pieces := Split(answer, ',');
    assert pieces == [SEND_WHATSAPP_MESSAGE, name] by {
      ActionLabelsHaveNoComma();
      SingleArgumentPieces(SEND_WHATSAPP_MESSAGE, name);
    }
    ActionLabelsDistinct();
    assert Decode(agent.phoneBook, answer, query) == Dispatch(agent.phoneBook, pieces, query);
  }

  /** A message can only reach a phone-book entry whose key is already
      stripped and capitalised: an entry such as `"john"` or `"Mary Ann"`
      is unreachable. */
  lemma OnlyCapitalisedContactsReachable(phoneBook: map<string, string>, answer: string, query: string)
    requires Decode(phoneBook, answer, query).Success?
    requires Decode(phoneBook, answer, query).value.SendMessage?
    ensures var name := Decode(phoneBook, answer, query).value.name;
            Capitalize(name) == name && Strip(name) == name
  {
    var pieces := Split(answer, ',');
    ActionLabelsDistinct();
    assert Decode(phoneBook, answer, query) == Dispatch(phoneBook, pieces, query);
    assert pieces[0] == SEND_WHATSAPP_MESSAGE && |pieces| >= 3;
    var raw := Strip(pieces[1]);
    assert Decode(phoneBook, answer, query).value.name == Capitalize(raw);
    CapitalizeIdempotent(raw);
    StripIdempotent(pieces[1]);
    CapitalizeKeepsStripped(raw);
  }

  /** Names that differ only in letter case and surrounding whitespace reach
      the same contact. */
  lemma NameLookupIgnoresCase(phoneBook: map<string, string>, a: string, b: string, message: string, query: string)
    requires ',' !in a && ',' !in b
    requires LowerAll(Strip(a)) == LowerAll(Strip(b))
    ensures Decode(phoneBook, Format(WhatsappQuery(a, message)), query)
            == Decode(phoneBook, Format(WhatsappQuery(b, message)), query)
  {
    CapitalizeIgnoresCase(Strip(a), Strip(b));
    var rest := Split(message, ',');
    var xs, ys := [SEND_WHATSAPP_MESSAGE, a] + rest, [SEND_WHATSAPP_MESSAGE, b] + rest;
    assert Split(Format(WhatsappQuery(a, message)), ',') == xs by {
      WhatsappPieces(a, message);
    }
    assert Split(Format(WhatsappQuery(b, message)), ',') == ys by {
      WhatsappPieces(b, message);
    }
    DispatchSendNameKey(phoneBook, xs, ys, query);
  }

  lemma WhatsappPieces(name: string, message: string)
    requires ',' !in name
    ensures Split(Format(WhatsappQuery(name, message)), ',')
            == [SEND_WHATSAPP_MESSAGE, name] + Split(message, ',')
  {
    var line := Format(WhatsappQuery(name, message));
    assert line == SEND_WHATSAPP_MESSAGE + "," + (name + "," + message);
    ActionLabelsHaveNoComma();
    LabelPieces(SEND_WHATSAPP_MESSAGE, name + "," + message);
    LabelPieces(name, message);
  }

  /** The three pieces `route` reads from the prompt's send answer. */
  lemma WhatsappPieceIndices(name: string, message: string)
    requires ',' !in name
    ensures var pieces := Split(Format(WhatsappQuery(name, message)), ',');
            |pieces| >= 3 && pieces[0] == SEND_WHATSAPP_MESSAGE && pieces[1] == name
            && pieces[2] == Split(message, ',')[0]
  {
    WhatsappPieces(name, message);
  }

  /** A message containing a comma is cut at its first comma: only the
      stripped text before it is sent. */
  lemma MessageCutAtFirstComma(phoneBook: map<string, string>, name: string, message: string, query: string)
    requires ',' !in name
    requires Capitalize(Strip(name)) in phoneBook
    ensures var contact := Capitalize(Strip(name));
            var sent := Strip(Split(message, ',')[0]);
            Decode(phoneBook, Format(WhatsappQuery(name, message)), query)
            == Success(SendMessage(contact, phoneBook[contact], sent))
  {
    var answer := Format(WhatsappQuery(name, message));
    WhatsappPieceIndices(name, message);
    DecodeSend(phoneBook, answer, query);
  }

  // -----------------------------------------------------------------------
  // Round trips through the classifier's answer format

  /** A well-formed `Get_Time,IANA` answer is decoded back to its zone. */
  lemma TimeRoundTrip(phoneBook: map<string, string>, zone: string, query: string)
    requires ',' !in zone && Strip(zone) == zone
    ensures Decode(phoneBook, Format(TimeQuery(zone)), query) == Success(TellTime(zone))
  {
    assert Split(Format(TimeQuery(zone)), ',') == [GET_TIME, zone] by {
      ActionLabelsHaveNoComma();
      SingleArgumentPieces(GET_TIME, zone);
    }
    DecodeTime(phoneBook, Format(TimeQuery(zone)), query);
  }

  /** A well-formed `Get_Stock_Price,Symbol` answer is decoded back to its
      symbol. */
  lemma StockRoundTrip(phoneBook: map<string, string>, symbol: string, query: string)
    requires ',' !in symbol && Strip(symbol) == symbol
    ensures Decode(phoneBook, Format(StockQuery(symbol)), query) == Success(QuoteStock(symbol))
  {
    assert Split(Format(StockQuery(symbol)), ',') == [GET_STOCK_PRICE, symbol] by {
      ActionLabelsHaveNoComma();
      SingleArgumentPieces(GET_STOCK_PRICE, symbol);
    }
    DecodeStock(phoneBook, Format(StockQuery(symbol)), query);
  }

  lemma SingleArgumentPieces(tag: string, argument: string)
    requires ',' !in tag && ',' !in argument
    ensures Split(tag + "," + argument, ',') == [tag, argument]
  {
    SplitConcat(tag, argument, ',');
    SplitWithoutSeparator(tag, ',');
    SplitWithoutSeparator(argument, ',');
  }

  /** A well-formed `Send_Whatsapp_Message,Name,Message` answer for a
      capitalised name in the phone book is decoded back to that name, its
      number and the message. */
  lemma WhatsappRoundTrip(phoneBook: map<string, string>, name: string, message: string, query: string)
    requires ',' !in name && ',' !in message
    requires Strip(name) == name && Capitalize(name) == name && Strip(message) == message
    requires name in phoneBook
    ensures Decode(phoneBook, Format(WhatsappQuery(name, message)), query)
            == Success(SendMessage(name, phoneBook[name], message))
  {
    assert Split(message, ',')[0] == message by {
      SplitWithoutSeparator(message, ',');
    }
    MessageCutAtFirstComma(phoneBook, name, message, query);
  }
}
