# Query routing of the support chatbot, in Dafny

This project models `QueryAgent.route` in `src/agents.py`. It is the one
piece of deterministic logic in the chatbot's agent class. A language model
classifies the user's query and answers with one line of the form
`Label,arg1,arg2`. `route` splits that line at every comma and compares the
first piece, exactly, with three action labels:

- `Get_Time,IANA`: asks a clock for the time in the stripped zone.
- `Get_Stock_Price,Symbol`: asks for the price of the stripped ticker symbol.
- `Send_Whatsapp_Message,Name,Message`: capitalises the stripped name, looks
  it up in the phone book, then sends the stripped message to that number.

Any other first piece, `Miscellaneous` included, hands the original query to
the retrieval-augmented answerer.

The model has two modules:

- `PyStr` (`pystr.dfy`) gives exact definitions of Python's `str.split(",")`,
  `str.strip()` and `str.capitalize()`, the last for ASCII letters. It proves
  the properties the router relies on. Split and join are inverse to each
  other. Split distributes over a separator. `strip` removes exactly the
  surrounding whitespace and is idempotent. `capitalize` yields the only
  string of capitalised shape that matches its input up to letter case.
- `Agents` (`agents.dfy`) holds the router. `Decode` maps the classifier's
  answer, the query and the phone book to a `Route` or to the exception
  `route` raises (`IndexError`, `KeyError`). `Perform` makes the one
  collaborator call of a route and builds the reply. `RouteQuery` composes
  them into an `Outcome`: the list of collaborator calls made and the reply
  or the error.

The collaborators are not defined in the class: `get_time`,
`get_stock_price`, `phone_book`, `send_whatsapp_mssg` and `invoke_rag`.
Four of them, `phone_book`, `get_time`, `get_stock_price` and `invoke_rag`,
are fields of the `Agent` datatype, a map and three functions, and are left
uninterpreted. The message send is the one effect of `route`. It is not a
field: it is recorded as a `SendWhatsappMssg` entry in the outcome's call
list, and its result is not modelled because `route` ignores it
(src/agents.py:171).

Label matching is an exact comparison of the untrimmed first
comma-separated piece; there is no case folding and no substring search.
`LeadingWhitespaceFallsBack` and
`LabelWithLineBreakFallsBack` show what this means: an answer that begins
with whitespace, or that puts a line break after the label, falls back to
retrieval.

## Model

| member | source | states |
|---|---|---|
| `PyStr.IsSpace` | src/agents.py:159 | The characters `strip()` removes, Python's `str.isspace` set, include no ASCII letter, so case mapping leaves them alone. |
| `PyStr.Split` | src/agents.py:156 | `split(",")` always gives at least one piece, so reading the label never fails. |
| `PyStr.SplitFirstPiece` | src/agents.py:156 | The first piece is the longest comma-free prefix of the answer: it ends at the first comma or at the end. |
| `PyStr.SplitPiecesHaveNoSeparator` | src/agents.py:156 | No piece contains a comma. |
| `PyStr.SplitCount` | src/agents.py:156 | The answer splits into one more piece than it has commas. |
| `PyStr.SplitWithoutSeparator` | src/agents.py:156 | An answer without a comma is a single piece. |
| `PyStr.SplitJoin` | src/agents.py:156 | Joining the pieces with commas gives back the classifier's answer. |
| `PyStr.JoinSplit` | src/agents.py:156 | Splitting the comma-join of comma-free pieces gives back those pieces. |
| `PyStr.SplitConcat` | src/agents.py:156 | Splitting `a + "," + b` gives the pieces of `a` followed by the pieces of `b`. |
| `PyStr.LStrip` | src/agents.py:159 | The leading whitespace removed by `strip()` is exactly the whitespace run at the start. What is left does not start with whitespace. |
| `PyStr.RStrip` | src/agents.py:159 | The trailing whitespace removed by `strip()` is exactly the whitespace run at the end. What is left does not end with whitespace. |
| `PyStr.Strip` | src/agents.py:159 | `strip()` never lengthens a string. Neither end of its result is whitespace. |
| `PyStr.StripExactly` | src/agents.py:167 | `strip()` of surrounding whitespace around a core that neither starts nor ends with whitespace is that core. |
| `PyStr.StripUnchanged` | src/agents.py:170 | A string that neither starts nor ends with whitespace is left as it is by `strip()`. |
| `PyStr.StripIdempotent` | src/agents.py:170 | Stripping twice is the same as stripping once. |
| `PyStr.LowerAll` | src/agents.py:167 | ASCII lower-casing, the part of `capitalize()` after the first character: it keeps the length and lower-cases each ASCII letter, leaving every other character as it is. |
| `PyStr.Capitalize` | src/agents.py:167 | `capitalize()` keeps the length. Its first character is not lower case and no later one is upper case. It equals its input up to letter case. |
| `PyStr.CapitalizeUnique` | src/agents.py:167 | Any capitalised-shape string equal to `s` up to case is `capitalize(s)`. |
| `PyStr.CapitalizeIdempotent` | src/agents.py:167 | With ASCII case mapping, capitalising twice is the same as capitalising once. |
| `PyStr.CapitalizeIgnoresCase` | src/agents.py:167 | Strings that differ only in letter case capitalise to the same string. |
| `PyStr.CapitalizeKeepsStripped` | src/agents.py:167 | Capitalising a stripped name leaves it stripped. |
| `Agents.Format` | src/agents.py:123-135 | The answer shapes the classifier prompt asks for: `Get_Time,IANA`, `Get_Stock_Price,Symbol` and `Send_Whatsapp_Message,Name,Message` contain a comma, and only `Miscellaneous` has none. |
| `Agents.Decode` | src/agents.py:156-176 | A decoded send carries the number the phone book holds for the decoded name. The fallback carries the original query unchanged. |
| `Agents.Dispatch` | src/agents.py:157-176 | The same two guarantees for the `if`/`elif` chain over the pieces: a send only goes to a phone-book entry's own number, and the fallback keeps the query. |
| `Agents.Perform` | src/agents.py:159-176 | Every branch that gets past decoding calls exactly one collaborator and returns a reply. |
| `Agents.RouteQuery` | src/agents.py:154-176 | `route` fails exactly when it calls no collaborator. It calls at most one, so it sends at most one message per call. |
| `Agents.LabelPieces` | src/agents.py:156 | A comma-free label followed by a comma is the first piece. The rest of the answer gives the remaining pieces. |
| `Agents.FirstPieceIs` | src/agents.py:156-157 | The first piece equals a comma-free label exactly when the answer is that label, alone or followed by a comma. |
| `Agents.FallbackExactlyForOtherLabels` | src/agents.py:157-176 | The retrieval fallback with the unchanged query is taken exactly when the first piece is none of `Get_Time`, `Get_Stock_Price`, `Send_Whatsapp_Message`. |
| `Agents.LeadingWhitespaceFallsBack` | src/agents.py:157-176 | An answer that starts with whitespace always calls `invoke_rag(query)` and returns its answer. |
| `Agents.LabelWithLineBreakFallsBack` | src/agents.py:157-176 | An action label followed by a line break instead of a comma is not recognised and falls back to retrieval. |
| `Agents.UnlabelledLineFallsBack` | src/agents.py:156-176 | A comma-free answer that is not an action label calls `invoke_rag(query)` and returns its answer. |
| `Agents.MiscellaneousFallsBack` | src/agents.py:135 | The `Miscellaneous` answer calls `invoke_rag` with the original query. |
| `Agents.DecodeTime` | src/agents.py:157-159 | `Get_Time` with a second piece decodes to the time route for the stripped second piece. |
| `Agents.DecodeStock` | src/agents.py:161-162 | `Get_Stock_Price` with a second piece decodes to the stock route for the stripped second piece. |
| `Agents.TimeBranch` | src/agents.py:157-159 | `Get_Time` calls `get_time` once with the stripped second piece. It replies `"The time is: "` followed by that result. |
| `Agents.StockBranch` | src/agents.py:161-163 | `Get_Stock_Price` calls `get_stock_price` once with the stripped second piece. It replies with the returned name and price in the fixed sentence. |
| `Agents.BareLabelFails` | src/agents.py:159 | An action label with no comma raises `IndexError` for piece 1. No collaborator is called. |
| `Agents.DispatchReadsThreePieces` | src/agents.py:157-171 | Two piece lists that agree on their first three pieces take the same branch with the same arguments. |
| `Agents.TailIgnored` | src/agents.py:167-170 | Pieces after the third are never read. Appending a comma and any text to a three-piece answer changes nothing. |
| `Agents.DecodeSend` | src/agents.py:165-170 | A send answer with a known capitalised stripped name and a third piece decodes to that name, its phone-book number and the stripped third piece. |
| `Agents.SendBranch` | src/agents.py:165-173 | With a known capitalised stripped name and a third piece, exactly one send happens. It sends the stripped third piece to that name's number, and the reply echoes that message and name. |
| `Agents.SendOnlyWhen` | src/agents.py:165-171 | The converse of `SendBranch`. Any send that `route` makes has the send label, a third piece and a known capitalised stripped name. It sends the stripped third piece to that name's number. |
| `Agents.DispatchSendRoute` | src/agents.py:165-170 | The `if`/`elif` chain yields a send route only for the send label with three pieces and a known name, and then with that name's number and the stripped third piece. |
| `Agents.UnknownContactFails` | src/agents.py:167-168 | An unknown name raises `KeyError` for the capitalised name, with or without a message, and nothing is sent. |
| `Agents.MissingMessageFails` | src/agents.py:168-171 | A known name with no third piece raises `IndexError` for piece 2. This happens after the lookup and before any send. |
| `Agents.OnlyCapitalisedContactsReachable` | src/agents.py:167-168 | A message can only go to a phone-book key that is already stripped and capitalised. Keys like `"john"` or `"Mary Ann"` can never be reached. |
| `Agents.DispatchSendNameKey` | src/agents.py:167-170 | Of the second piece, only its capitalised stripped form affects a send: two answers that agree on it and on the message decode the same way. |
| `Agents.NameLookupIgnoresCase` | src/agents.py:167-168 | Names that differ only in letter case and surrounding whitespace reach the same contact. |
| `Agents.WhatsappPieces` | src/agents.py:132 | The prompt's `Send_Whatsapp_Message,Name,Message` answer with a comma-free name splits into the label, the name and the pieces of the message. |
| `Agents.MessageCutAtFirstComma` | src/agents.py:131-133 | A message containing a comma is cut at its first comma: only the stripped text before it is sent. |
| `Agents.SingleArgumentPieces` | src/agents.py:123 | `Label,argument` with both parts comma-free splits into exactly those two pieces. |
| `Agents.TimeRoundTrip` | src/agents.py:122-125 | A well-formed `Get_Time,IANA` answer with a stripped, comma-free zone decodes to that zone. |
| `Agents.StockRoundTrip` | src/agents.py:127-129 | A well-formed `Get_Stock_Price,Symbol` answer with a stripped, comma-free symbol decodes to that symbol. |
| `Agents.WhatsappRoundTrip` | src/agents.py:131-133 | A well-formed send answer with a capitalised, stripped name in the phone book and a stripped, comma-free message decodes to that name, its number and the message. |

## Left out

- The classification chain (src/agents.py:117-151) is not modelled: the Groq model, its prompt and the output parser. Its answer is the arbitrary `answer` parameter. `Format` writes down only the answer shapes the prompt asks for.
- The collaborators `phone_book`, `get_time`, `get_stock_price` and `invoke_rag` are uninterpreted fields of `Agent`, and `send_whatsapp_mssg` is only recorded as a `SendWhatsappMssg` call, because none of them is defined in the class. Exceptions they might raise are not modelled. Neither is a result of the wrong type, such as a non-string time or a price record without `name` or `price`.
- `Quote.price` is the text the f-string renders. How Python formats a numeric price is not modelled.
- The `print` calls in `route` (src/agents.py:155, 158, 166, 169) write only to the console and are left out.
- `PyStr.LowerAll`: lower-cases ASCII letters only. Python's `lower()` applies the full Unicode lower-case mapping, which can change the length (for example `"İ".lower()` has two characters).
- `PyStr.CapitalizeIdempotent`: proved for the ASCII model. Under Unicode special casing Python's `capitalize()` is not idempotent on every character.
- `PyStr.Capitalize`: upper-cases and lower-cases ASCII letters only. Other characters are left unchanged, whereas Python's `capitalize()` applies full Unicode title-case and lower-case mappings, some of which change the length (for example `"ß"` becomes `"Ss"`).
- The other `QueryAgent` methods (`simple_retrieval`, `template_based_retrieval`, `memory_based_retrieval_with_template`) are not modelled. They only build prompt strings and hand them to llama_index engines. src/agent.py is not modelled for the same reason.
- src/database.py (a pymongo wrapper), src/docs_ingestion.py (Redis stores, ingestion and the library's 3000-token chat memory), src/settings.py, src/main.py and streamlit_app.py are not modelled. They are configuration, I/O and library calls. src/main.py never calls `route`: it answers through `memory_based_retrieval_with_template`.
- Ticket parsing and conversation-memory eviction are not modelled, because the source contains no code for either.
