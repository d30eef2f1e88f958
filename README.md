# Linked-data explorer core, modelled in Dafny

bekhabar is a small linked-data explorer with two front ends that talk to a SPARQL endpoint.

- The Streamlit page `pages/linked_data_explorer.py`:
  - builds four SPARQL queries (search by label, entity details, outgoing relations, incoming relations);
  - turns the result rows into search hits and an entity view;
  - draws the entity as Graphviz DOT text.
- The browser page uses `sparqlClient.js` and `app.js`:
  - `sparqlClient.js` holds the same four queries, filled with the fixed language "en" and limits 20 and 50;
  - `sparqlClient.js` also runs `searchEntities` (a term empty after trimming sends no query) and `getEntityDetails` (three queries in parallel);
  - `app.js` has the search box guard, and `renderGraph` builds the node and link arrays for the force layout, deduplicating nodes by id through a JavaScript `Map`.
- The SPARQL console in `app.py` turns the endpoint's answer into a table (`execute_sparql`).

## What the model covers

- **Rows.** A result row is the variable-to-value map of the SPARQL 1.1 Query Results JSON Format (section 3.2.1). An unbound variable is absent.
  - `Bindings.Val` is both `binding_val` and `val`.
  - Python `or` and JavaScript `||` on optional strings are `Or` and `OrElse`: a value counts when it is present and non-empty.
- **The endpoint.** It is a function from query text to rows or a failure reason (`Bindings.Endpoint`). The HTTP exchange is outside the model.
- **Query texts.** The builders are the exact template texts, including each source's own indentation.
  - The model does not compare them with golden strings. Instead it reads them back with the pieces of the SPARQL 1.1 grammar they rely on (section 19.8), defined in `SparqlLexer`:
    - STRING_LITERAL2 with its ECHAR escapes, for the search term and the language tag;
    - IRIREF, for the entity IRI;
    - the trailing `LIMIT n`.
  - Both sources escape a term by putting a backslash before every `"` and nothing else.
  - The lemmas prove that a term without backslash, line feed or carriage return is read back as exactly that term.
  - Counterexample lemmas show where this breaks:
    - a term that starts with backslash-quote closes the literal early and leaks the rest into the query;
    - a term that ends in a backslash leaves the literal unterminated;
    - a `"` in the language tag, or a `>` in an entity IRI, ends that token.
- **DOT text.** It is read back with Graphviz's rules for quoted strings (`DotLexer`).
  - An edge whose fields hold no backslash is read back field for field.
  - A label that ends in a backslash breaks its edge statement.
  - When no field holds a line feed, splitting the text at line feeds gives back exactly the statement lines.
- **Graph data.** The JavaScript `Map` is a class with an insertion-ordered key list and an entry map.
  - The deduplicated nodes have distinct ids: exactly the entity, the objects and the subjects.
  - Every link's ends are node ids.
  - The entity's node stays first, but stays central only if no relation points back at the entity.

## Model

| member | source | states |
|---|---|---|
| `Bindings.Val` | pages/linked_data_explorer.py:12-13 | The value is absent exactly when the variable is unbound, and otherwise it is the bound value. Reading never fails. |
| `Bindings.Or` | pages/linked_data_explorer.py:62 | `a or b`: the first operand when it is present and non-empty, otherwise the second. |
| `Bindings.OrElse` | pages/linked_data_explorer.py:69-70 | `a or d` with a plain-string fallback: the value of `a` when it is present and non-empty, otherwise `d`. |
| `Bindings.LabelOrUri` | sparqlClient.js:62 | The label when it is bound and non-empty, otherwise the IRI variable's value. Either way the result is one of the two bound values. |
| `Text.Trim` | sparqlClient.js:65-66 | `trim()`: the result is empty exactly when the input is all ECMAScript whitespace, and it neither starts nor ends with whitespace. |
| `Text.TrimSlice` | sparqlClient.js:66 | `trim()` removes only whitespace, and only at the two ends: the result is a slice of the input. |
| `Text.TrimIdempotent` | sparqlClient.js:66 | Trimming a trimmed term changes nothing. |
| `Text.ParseNatToString` | pages/linked_data_explorer.py:23 | The decimal text written after `LIMIT` reads back as the limit. |
| `Text.SplitJoin` | pages/linked_data_explorer.py:104 | `"\n".join(lines)` split at line feeds gives the lines back, when no line holds a line feed. |
| `Escape.EscapeQuotes` | pages/linked_data_explorer.py:16 | `replace('"', '\\"')`: one character longer per quote, and every quote in the result is preceded by a backslash. |
| `Escape.UnescapeEscape` | pages/linked_data_explorer.py:16 | Deleting the character before each quote undoes the escaper. |
| `Escape.EscapeAppend` | sparqlClient.js:29 | The escaper works character by character: escaping a concatenation is concatenating the escapes. |
| `Escape.EscapeKeepsOut` | pages/linked_data_explorer.py:90 | The escaper adds only backslashes, so a line feed absent from a field is absent from its escape. |
| `Escape.SafeTermLiteral` | pages/linked_data_explorer.py:16-22 | A term without backslash, line feed or carriage return, once escaped and quoted, reads as a STRING_LITERAL2 whose value is the term. |
| `Escape.BackslashQuoteBreaksOut` | pages/linked_data_explorer.py:16-22 | Counterexample: a term starting with `\"` ends the literal after those two characters. |
| `Escape.TrailingBackslashSwallowsQuote` | pages/linked_data_explorer.py:16-22 | Counterexample: a term ending in a backslash turns the closing quote into an escaped quote. |
| `Escape.TrailingBackslashUnterminated` | pages/linked_data_explorer.py:22-23 | Counterexample: with plain text and then a line feed after the closing quote, as in the search query, that literal never terminates. |
| `SparqlLexer.IriSplice` | pages/linked_data_explorer.py:31 | A text spliced between `<` and `>` reads as one IRIREF ending at the splice's end if and only if every character is allowed by IRIREF. |
| `SparqlLexer.LimitRendered` | pages/linked_data_explorer.py:23 | A query ending in `LIMIT `, the decimal limit and white space asks for exactly that limit. |
| `Explorer.SearchTermLiteral` | pages/linked_data_explorer.py:15-24 | In `query_search`, the literal opened at the term's position reads back as the term, when the term holds no backslash, line feed or carriage return. A reader reaches that position only when the language tag is plain too; see `SearchReadsInOrder`. |
| `Explorer.SearchReadsInOrder` | pages/linked_data_explorer.py:15-24 | With a plain tag and a plain term, a reader meets the quotes in order. There is no quote before the tag's literal, which reads back as the tag. There is no quote between its closing quote and the term's literal, which reads back as the term. |
| `Explorer.SearchTermBreaksOut` | pages/linked_data_explorer.py:16-22 | Counterexample: in `query_search`, a term starting with `\"` ends the CONTAINS literal after two characters. |
| `Explorer.SearchTermUnterminated` | pages/linked_data_explorer.py:16-23 | Counterexample: in `query_search`, a term ending in a backslash leaves the CONTAINS literal unterminated. |
| `Explorer.SearchLangLiteral` | pages/linked_data_explorer.py:21 | The raw language tag is read back as the langMatches literal when it holds no quote, backslash, line feed or carriage return. |
| `Explorer.SearchLangBreaksOut` | pages/linked_data_explorer.py:21 | Counterexample: a quote in the language tag closes its literal there. |
| `Explorer.SearchLangQuoteStrandsTerm` | pages/linked_data_explorer.py:21-22 | Counterexample: a tag that is a lone quote gives an empty language literal. The literal the next quote opens then runs into the line feed after `))` and is never terminated, so the term's literal is never reached. |
| `Explorer.SearchLimit` | pages/linked_data_explorer.py:23 | The search query asks for exactly `limit` rows. |
| `Explorer.DetailsLimit` | pages/linked_data_explorer.py:35 | The details query asks for exactly `limit` rows. |
| `Explorer.OutgoingLimit` | pages/linked_data_explorer.py:46 | The outgoing query asks for exactly `limit` rows. |
| `Explorer.IncomingLimit` | pages/linked_data_explorer.py:57 | The incoming query asks for exactly `limit` rows. |
| `Explorer.DetailsStart` | pages/linked_data_explorer.py:27-31 | The details query opens with its prefixes, its SELECT and the IRI reference of the entity. |
| `Explorer.DetailsIri` | pages/linked_data_explorer.py:31-34 | The details query reads the entity IRI back as one IRIREF if and only if the IRI holds only IRIREF characters. |
| `Explorer.OutgoingIri` | pages/linked_data_explorer.py:42 | The same for the outgoing query's subject. |
| `Explorer.IncomingIri` | pages/linked_data_explorer.py:53 | The same for the incoming query's object. |
| `Explorer.DetailsIriClosesEarly` | pages/linked_data_explorer.py:31 | Counterexample: an entity IRI holding `>` ends the IRIREF at that character. |
| `Explorer.SearchEntities` | pages/linked_data_explorer.py:60-62 | It fails exactly when the search request fails, with that reason. Otherwise it gives one hit per row, in order: the uri, and the label or else the uri. |
| `Explorer.TypesOf` | pages/linked_data_explorer.py:71-74 | At most one type per details row, and every type has a non-empty IRI. |
| `Explorer.TypedIndices` | pages/linked_data_explorer.py:73 | Reference for the filter: strictly increasing positions of typed rows, covering every typed row. |
| `Explorer.TypesFollowRows` | pages/linked_data_explorer.py:71-74 | The k-th type is built from the k-th typed row: the comprehension keeps exactly the typed rows, in order. |
| `Explorer.AssembleEntity` | pages/linked_data_explorer.py:68-87 | The label is the first row's non-empty label, else the IRI. The comment is the first row's comment, else "". Types come from the typed rows. There is one relation per outgoing and incoming row. |
| `Explorer.GetEntity` | pages/linked_data_explorer.py:64-87 | It succeeds exactly when all three requests succeed. Otherwise the error is the reason of the first failure in the order details, outgoing, incoming. On success the view is assembled from the three row sets. |
| `Explorer.LabelNeverBlank` | pages/linked_data_explorer.py:72 | A bound, non-empty IRI always gets a non-empty display label. |
| `Explorer.EntityLabelNonEmpty` | pages/linked_data_explorer.py:69 | The entity label is never empty for a non-empty IRI. |
| `ExplorerDot.Esc` | pages/linked_data_explorer.py:90 | `esc`: a missing field becomes "". Unescaping gives the field's text back, and the length grows by one per quote. |
| `ExplorerDot.DotStmts` | pages/linked_data_explorer.py:91-103 | The graph has 5 + 2·(outgoing + incoming) statements. It opens with `digraph G {`, the centre node is fourth, and it closes with `}`. |
| `ExplorerDot.DotStmtsLayout` | pages/linked_data_explorer.py:97-102 | After the header come, per outgoing relation, the edge from the entity and the object's node, then, per incoming relation, the edge to the entity and the subject's node. |
| `ExplorerDot.GraphDot` | pages/linked_data_explorer.py:89-104 | `graph_dot` returns the rendered statements joined with line feeds. |
| `ExplorerDot.AppendOutgoing` | pages/linked_data_explorer.py:97-99 | The outgoing loop appends the two lines of each relation, in order. |
| `ExplorerDot.AppendIncoming` | pages/linked_data_explorer.py:100-102 | The incoming loop appends the two lines of each relation, in order. |
| `ExplorerDot.EdgeReadBack` | pages/linked_data_explorer.py:98 | An edge whose fields hold no backslash is read by Graphviz as an edge between exactly those names with exactly that label. |
| `ExplorerDot.TrailingBackslashBreaksEdge` | pages/linked_data_explorer.py:90-98 | Counterexample: a label ending in a backslash stops the edge line from reading as an edge statement. |
| `ExplorerDot.RenderOneLine` | pages/linked_data_explorer.py:91-102 | A statement whose fields hold no line feed renders as a single line. |
| `ExplorerDot.DotLinesSplit` | pages/linked_data_explorer.py:89-104 | With no line feed in any field, the DOT text splits back into exactly its 5 + 2·(outgoing + incoming) statement lines. |
| `DotLexer.QuotedRoundTrip` | pages/linked_data_explorer.py:90-95 | A backslash-free text escaped by `esc` and quoted is read by Graphviz as exactly that text. |
| `DotLexer.TrailingBackslashRunsOn` | pages/linked_data_explorer.py:90 | Counterexample: a text ending in a backslash makes the closing quote an escaped quote, so the string runs on. |
| `SparqlClient.SearchTermLiteral` | sparqlClient.js:29 | In `q.search`, a term without backslash, line feed or carriage return is read back as the CONTAINS literal with the term as its exact value. |
| `SparqlClient.SearchTermBreaksOut` | sparqlClient.js:29 | Counterexample: a term starting with `\"` ends the CONTAINS literal after two characters. |
| `SparqlClient.SearchTermUnterminated` | sparqlClient.js:29-30 | Counterexample: a term ending in a backslash leaves the CONTAINS literal unterminated. |
| `SparqlClient.SearchLang` | sparqlClient.js:28 | The language filter compares with the literal `en` (`LANG`). |
| `SparqlClient.SearchLimit` | sparqlClient.js:30 | The search query asks for 20 rows (`LIMIT_SEARCH`). |
| `SparqlClient.DetailsLimit` | sparqlClient.js:39 | The details query asks for 50 rows (`LIMIT_RELATIONS`). |
| `SparqlClient.OutgoingLimit` | sparqlClient.js:48 | The outgoing query asks for 50 rows. |
| `SparqlClient.IncomingLimit` | sparqlClient.js:57 | The incoming query asks for 50 rows. |
| `SparqlClient.DetailsStart` | sparqlClient.js:32-36 | The details template opens with its prefixes, its SELECT and the entity's IRI reference. |
| `SparqlClient.DetailsIri` | sparqlClient.js:36-38 | The entity IRI reads back as one IRIREF if and only if it holds only IRIREF characters. |
| `SparqlClient.OutgoingIri` | sparqlClient.js:44 | The same for `q.outgoing`. |
| `SparqlClient.IncomingIri` | sparqlClient.js:53 | The same for `q.incoming`. |
| `SparqlClient.DetailsIriClosesEarly` | sparqlClient.js:36 | Counterexample: an IRI holding `>` ends the IRIREF at that character. |
| `SparqlClient.SearchEntities` | sparqlClient.js:64-68 | A term that trims to nothing gives no hits, whatever the endpoint. Otherwise the trimmed term is searched: it fails exactly when the request fails, with that reason, and each row becomes one hit in order. |
| `SparqlClient.SearchIgnoresSurroundingSpace` | sparqlClient.js:65-66 | Searching for a term and for its trimmed form gives the same result. |
| `SparqlClient.KeepTyped` | sparqlClient.js:85 | `.filter(t => t.uri)` keeps at most the given references, each with a non-empty IRI. |
| `SparqlClient.TypesAgree` | sparqlClient.js:80-86 | Mapping then filtering gives exactly the types of the Python comprehension. |
| `SparqlClient.AssembleDetails` | sparqlClient.js:77-101 | The label comes from `?label`, else from a variable named `?null`, else the IRI. The comment, types and relations are built as in the Python page. |
| `SparqlClient.AssembleAgrees` | sparqlClient.js:77-78 | Unless the first details row binds `?null`, the browser and the Python page build the same entity view. |
| `SparqlClient.NullKeyLabel` | sparqlClient.js:78 | When the first row binds `?null`, the two differ: the browser shows that value and the Python page shows the IRI. |
| `SparqlClient.GetEntityDetails` | sparqlClient.js:70-102 | It succeeds exactly when all three requests succeed, and then gives the assembled view. Otherwise the error is the reason of one of the failed requests. |
| `BrowserApp.SearchPanel.OnSearch` | app.js:22-36 | A blank input clears the list. Otherwise the list shows the hits of the search, and a failed search leaves the list unchanged. |
| `BrowserApp.PushedNodes` | app.js:89-100 | The entity node, marked central, comes first, followed by one node per relation; no other node is central. |
| `BrowserApp.PushedNodesLayout` | app.js:92-100 | After the entity come one node per outgoing relation, with the object as id and the object's label, then one per incoming relation, with the subject and the subject's label, in relation order. |
| `BrowserApp.GraphLinks` | app.js:90-100 | One link per relation, outgoing first: entity to object, then subject to entity, each labelled with the predicate label. |
| `BrowserApp.FirstOccurrences` | app.js:102-104 | The Map's keys: pairwise distinct, exactly the ids set, with the first id first. |
| `BrowserApp.MapAfter` | app.js:103 | The Map's entries: its domain is exactly the ids set, and each id is bound to a node with that id. |
| `BrowserApp.Unique` | app.js:104 | `Array.from(uniq.values())`: one node per key, in key order, each the entry for that key. |
| `BrowserApp.NodeMap.Set` | app.js:103 | `Map.set`: a new key goes last, a present key keeps its place, and the entry takes the new node. |
| `BrowserApp.NodeMap.Values` | app.js:104 | The entries in key order. |
| `BrowserApp.RenderGraph` | app.js:88-104 | The arrays handed to the layout are the deduplicated pushed nodes and the links. |
| `BrowserApp.PushNodesAndLinks` | app.js:89-100 | The two `forEach` loops push exactly the specified nodes and links. |
| `BrowserApp.PushOutgoing` | app.js:92-95 | For each outgoing relation in turn, it pushes the object's node and a link to it. |
| `BrowserApp.PushIncoming` | app.js:97-100 | For each incoming relation in turn, it pushes the subject's node and a link from it. |
| `BrowserApp.UniqueById` | app.js:102-104 | Filling a Map node by node and taking its values gives the deduplicated nodes. |
| `BrowserApp.LastWins` | app.js:103 | A node that no later node shares an id with is what the Map holds under that id. |
| `BrowserApp.BoundNoEarlier` | app.js:103 | What the Map holds under an id was pushed no earlier than any node with that id. |
| `BrowserApp.UniqueIds` | app.js:102-104 | The ids of the deduplicated nodes are the Map's keys. |
| `BrowserApp.PushedIds` | app.js:89-100 | The ids pushed, in order, are the entity, the objects, then the subjects. |
| `BrowserApp.UniqueNodeIds` | app.js:89-104 | The deduplicated nodes have pairwise distinct ids, which are exactly the entity, the objects and the subjects. |
| `BrowserApp.LinkEndsAreNodes` | app.js:88-104 | Every link's source and target are ids of deduplicated nodes. |
| `BrowserApp.FirstNodeFate` | app.js:102-104 | If only the first pushed node is central, the first deduplicated node keeps its id, and stays central exactly when no later node repeats that id. |
| `BrowserApp.CenterNodeFate` | app.js:89-104 | The entity's node is first in the layout's nodes. It stays central exactly when no relation's object or subject is the entity itself. |
| `ConsolePage.StatusInMessage` | app.py:221 | The HTTP error message carries the status code in decimal right after its fixed opening. |
| `ConsolePage.ProjectRow` | app.py:235 | A row has exactly the listed variables as keys, each with its value, or None when unbound. |
| `ConsolePage.ExecuteSparql` | app.py:220-237 | Status 400 or more raises the HTTP error with that status and text, and an unparsable body raises the JSON error. Otherwise the table's columns are the listed variables, with one projected row per binding, in order, and no rows when bindings are missing. |

## Left out

- **Transport.** The Python `run_query`, the JavaScript `runQuery` and the `requests.post` in `execute_sparql` are left out. The endpoint is a function from query text to rows or a failure reason, so the HTTP status check, the `Accept` and `Content-Type` headers, the 30-second timeout and the JSON decoding are not modelled.
  - Python's `.get("results", {}).get("bindings", [])` defaults and JavaScript's throw on a missing `results` both become "rows" or "failure".
- **The console's connection error.** The branch of `execute_sparql` that wraps a connection exception (app.py:215-218) happens before there is a response, so it is outside the model.
- **Streamlit, the DOM and d3.** Page layout, widgets, session state, the markup `onSearch` and `renderDetails` write into `innerHTML`, the force simulation, and `selectEntity`'s loading text are all left out. The graph is modelled up to the node and link arrays given to the simulation.
- **pandas.** The console's `DataFrame` is a list of columns plus one dictionary per row.
- **Concurrency and timing.** The 250 ms debounce of `onSearch` and the interleaving of overlapping searches are left out.
- `SparqlClient.GetEntityDetails`: it states only that the error is the reason of one of the failed requests. `Promise.all` rejects with whichever failing request settles first, and that order depends on timing, so it is not modelled. The function body picks the first failure in list order.
- `Explorer.GetEntity`: the model does not express that after a failed request the later requests are never sent. Only the results are modelled.
- `BrowserApp.SearchPanel.OnSearch`: the list keeps the hits it shows rather than their HTML. A failure that is only logged leaves the list unchanged.
- `ExplorerDot.EdgeReadBack`: the read-back is proved for fields without a backslash, because `esc` does not escape backslashes. The backslash case is covered by the counterexample lemmas `TrailingBackslashBreaksEdge` and `TrailingBackslashRunsOn`.
- **Graphviz's reader.** `DotLexer` covers only quoted strings and the edge statement shape. Other DOT syntax is not modelled.
- **Unicode escapes in queries.** SPARQL decodes `\uXXXX` and `\UXXXXXXXX` escapes across the whole query text before tokenising. This is a second way for a term holding backslashes to change the query, and the literal reader does not model it: it reads the text as written.
- **Query readers.** The SPARQL readers check the string literals, the IRI references and the trailing limit. They do not parse the whole query, so the rest of each template is fixed text and is not checked against the grammar.
- **Unicode.** Strings are sequences of characters. There is no UTF-8 encoding, and JavaScript's UTF-16 code units are not distinguished from code points.
