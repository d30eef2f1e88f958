/** The Streamlit linked-data explorer page (pages/linked_data_explorer.py):
    its four query builders and the assembly of search hits and entity views
    from the rows the endpoint returns (its DOT rendering is ExplorerDot).
    The endpoint is an abstract function from query text to rows or
    failure. */
module Explorer {
  import opened Text
  import opened SparqlLexer
  import opened Escape
  import opened Bindings
  import opened QueryText

  // ---------------------------------------------------------------------------
  // Query builders
  // ---------------------------------------------------------------------------

  const RdfsPrefix := "\nPREFIX rdfs: " + "<http://www.w3.org/" + "2000/01/" + "rdf-schema#>\n"

  /** The literal runs of the search query around its three fields; the
      quotes that delimit the language tag and the term are written out in
      the builder. */
  const SearchHead := RdfsPrefix + "SELECT ?uri " + "?label WHERE {\n" + "  ?uri rdfs:label " + "?label .\n"
    + "  FILTER(" + "langMatches(" + "lang(?label), "
  const SearchMid := "))" + "\n" + "  FILTER(" + "CONTAINS(" + "LCASE(STR(" + "?label)), " + "LCASE("
  const SearchTail := ")))\n} LIMIT "

  /** query_search: labels in language `lang` containing the term, case
      folded, at most `limit` of them. The term goes through the quote
      escaper; the language tag goes in raw. */
  function QuerySearch(term: string, lang: string, limit: nat): string {
    SearchHead + "\"" + lang + "\"" + SearchMid + "\"" + EscapeQuotes(term) + "\"" + SearchTail + NatToString(limit) + "\n"
  }

  /** The literal runs of the details query, between its fields. */
  const DetailsHead := RdfsPrefix + "PREFIX rdf:  <http://www.w3.org/1999/02/22-rdf-syntax-ns#>\n"
    + "SELECT ?label ?comment ?type ?typeLabel WHERE {\n  OPTIONAL { "
  const DetailsLabel := " rdfs:label ?label FILTER(langMatches(lang(?label), \""
  const DetailsComment := " rdfs:comment ?comment FILTER(langMatches(lang(?comment), \""
  const DetailsType := " rdf:type ?type .\n             OPTIONAL { ?type rdfs:label ?typeLabel FILTER(langMatches(lang(?typeLabel), \""
  const OptionalClose := "\")) }\n  OPTIONAL { "
  const DetailsTail := "\")) } }\n} LIMIT "

  /** query_details: label, comment and types (with their labels) of `uri`. */
  function QueryDetails(uri: string, lang: string, limit: nat): string {
    DetailsHead + IriRef(uri) + DetailsLabel + lang + OptionalClose
    + IriRef(uri) + DetailsComment + lang + OptionalClose
    + IriRef(uri) + DetailsType + lang + DetailsTail + NatToString(limit) + "\n"
  }

  /** The literal runs of the outgoing and incoming queries. */
  const OutgoingHead := RdfsPrefix + "SELECT ?p ?pLabel ?o ?oLabel WHERE {\n  "
  const OutgoingWhere := " ?p ?o .\n  FILTER(isIRI(?o))\n  OPTIONAL { ?p rdfs:label ?pLabel FILTER(langMatches(lang(?pLabel), \""
  const OutgoingMid := "\")) }\n  OPTIONAL { ?o rdfs:label ?oLabel FILTER(langMatches(lang(?oLabel), \""
  const IncomingHead := RdfsPrefix + "SELECT ?s ?sLabel ?p ?pLabel WHERE {\n  ?s ?p "
  const IncomingWhere := " .\n  FILTER(isIRI(?s))\n  OPTIONAL { ?p rdfs:label ?pLabel FILTER(langMatches(lang(?pLabel), \""
  const IncomingMid := "\")) }\n  OPTIONAL { ?s rdfs:label ?sLabel FILTER(langMatches(lang(?sLabel), \""
  const RelationsTail := "\")) }\n} LIMIT "

  /** query_outgoing: triples <uri> ?p ?o whose object is an IRI, with labels. */
  function QueryOutgoing(uri: string, lang: string, limit: nat): string {
    OutgoingHead + IriRef(uri) + OutgoingWhere + lang + OutgoingMid + lang + RelationsTail + NatToString(limit) + "\n"
  }

  /** query_incoming: triples ?s ?p <uri> whose subject is an IRI, with labels. */
  function QueryIncoming(uri: string, lang: string, limit: nat): string {
    IncomingHead + IriRef(uri) + IncomingWhere + lang + IncomingMid + lang + RelationsTail + NatToString(limit) + "\n"
  }

  /** A term without backslash, line feed or carriage return is read back
      from the search query as one string literal whose value is the term,
      closing at the quote the builder places after it. */
  lemma SearchTermLiteral(term: string, lang: string, limit: nat)
    requires LiteralSafe(term)
    ensures LiteralBody(QuerySearch(term, lang, limit)[|SearchHead| + |lang| + |SearchMid| + 3..])
            == Some((term, |EscapeQuotes(term)|))
  {
    TermLiteralIn(SearchHead, lang, SearchMid, term, SearchTail, NatToString(limit), "\n");
  }

  /** The search query's fixed runs hold no quote of their own. */
  lemma PrefixQuoteFree()
    ensures '"' !in RdfsPrefix
  {
  }

  lemma SearchHeadQuoteFree()
    ensures '"' !in SearchHead
  {
    PrefixQuoteFree();
  }

  lemma SearchMidQuoteFree()
    ensures '"' !in SearchMid
  {
  }

  /** The run after the language tag starts with plain text and a line feed. */
  lemma SearchMidOpens()
    ensures |SearchMid| >= 3 && NoLiteralSpecials(SearchMid[..2]) && SearchMid[2] == '\n'
  {
    assert SearchMid[..2] == "))";
  }

  /** With a plain language tag and a plain term, a reader meets the quotes
      of the search query in order: none before the tag's literal, which
      reads back as the tag; none between the quote that closes it and the
      quote that opens the term's literal, which reads back as the term. */
  lemma SearchReadsInOrder(term: string, lang: string, limit: nat)
    requires NoLiteralSpecials(lang) && LiteralSafe(term)
    ensures '"' !in QuerySearch(term, lang, limit)[..|SearchHead|]
    ensures QuerySearch(term, lang, limit)[|SearchHead|] == '"'
    ensures LiteralBody(QuerySearch(term, lang, limit)[|SearchHead| + 1..]) == Some((lang, |lang|))
    ensures '"' !in QuerySearch(term, lang, limit)[|SearchHead| + |lang| + 2..|SearchHead| + |lang| + |SearchMid| + 2]
    ensures QuerySearch(term, lang, limit)[|SearchHead| + |lang| + |SearchMid| + 2] == '"'
    ensures LiteralBody(QuerySearch(term, lang, limit)[|SearchHead| + |lang| + |SearchMid| + 3..])
            == Some((term, |EscapeQuotes(term)|))
  {
    SearchHeadQuoteFree();
    SearchMidQuoteFree();
    QuotesIn(SearchHead, lang, SearchMid, EscapeQuotes(term), SearchTail, NatToString(limit), "\n");
    SearchLangLiteral(term, lang, limit);
    SearchTermLiteral(term, lang, limit);
  }

  /** Counterexample to the raw tag: a tag that is a lone quote closes the
      language literal at once, and the literal the next quote opens runs
      into the line feed after `))`: the term's literal is never reached. */
  lemma SearchLangQuoteStrandsTerm(term: string, limit: nat)
    ensures LiteralBody(QuerySearch(term, "\"", limit)[|SearchHead| + 1..]) == Some(("", 0))
    ensures QuerySearch(term, "\"", limit)[|SearchHead| + 2] == '"'
    ensures LiteralBody(QuerySearch(term, "\"", limit)[|SearchHead| + 3..]).None?
  {
    SearchMidOpens();
    StrayQuoteIn(SearchHead, SearchMid, EscapeQuotes(term), SearchTail, NatToString(limit), "\n", 2);
  }

  /** Counterexample to the escaper: a term starting with backslash-quote
      ends the literal after those two characters, so the rest t of the term
      is read as query text. */
  lemma SearchTermBreaksOut(t: string, lang: string, limit: nat)
    ensures LiteralBody(QuerySearch("\\\"" + t, lang, limit)[|SearchHead| + |lang| + |SearchMid| + 3..])
            == Some(("\\", 2))
  {
    TermBreaksOutIn(SearchHead, lang, SearchMid, t, SearchTail, NatToString(limit), "\n");
  }

  /** Counterexample to the escaper: a term ending in a backslash (and
      otherwise plain) turns the quote placed after it into an escaped quote,
      and the literal is never terminated: the line feed that follows breaks
      the STRING_LITERAL2 rule. */
  lemma SearchTermUnterminated(a: string, lang: string, limit: nat)
    requires LiteralSafe(a)
    ensures LiteralBody(QuerySearch(a + "\\", lang, limit)[|SearchHead| + |lang| + |SearchMid| + 3..]).None?
  {
    SearchTailOpens();
    TermUnterminatedIn(SearchHead, lang, SearchMid, a, SearchTail, NatToString(limit), "\n");
  }

  lemma SearchTailOpens()
    ensures |SearchTail| >= 4 && NoLiteralSpecials(SearchTail[..3]) && SearchTail[3] == '\n'
  {
    assert SearchTail[..3] == ")))";
  }

  /** The language tag is spliced raw: a tag without quote, backslash, line
      feed or carriage return is read back as the literal it was meant to
      be, ... */
  lemma SearchLangLiteral(term: string, lang: string, limit: nat)
    requires NoLiteralSpecials(lang)
    ensures LiteralBody(QuerySearch(term, lang, limit)[|SearchHead| + 1..]) == Some((lang, |lang|))
  {
    LangLiteralIn(SearchHead, lang, SearchMid, EscapeQuotes(term), SearchTail, NatToString(limit), "\n");
  }

  /** ... while a quote inside the tag closes the literal there, and what
      follows it is read as query text. */
  lemma SearchLangBreaksOut(term: string, a: string, b: string, limit: nat)
    requires NoLiteralSpecials(a)
    ensures LiteralBody(QuerySearch(term, a + "\"" + b, limit)[|SearchHead| + 1..]) == Some((a, |a|))
  {
    LangBreaksOutIn(SearchHead, a, b, SearchMid, EscapeQuotes(term), SearchTail, NatToString(limit), "\n");
  }

  /** Each builder ends its text with "LIMIT", the decimal limit and a line
      feed, so the query asks for exactly `limit` rows. */
  lemma SearchLimit(term: string, lang: string, limit: nat)
    ensures LimitOf(QuerySearch(term, lang, limit)) == Some(limit)
  {
    LimitRendered(SearchHead + "\"" + lang + "\"" + SearchMid + "\"" + EscapeQuotes(term) + "\"" + SearchTail, limit, "\n");
  }

  lemma DetailsLimit(uri: string, lang: string, limit: nat)
    ensures LimitOf(QueryDetails(uri, lang, limit)) == Some(limit)
  {
    LimitRendered(DetailsHead + IriRef(uri) + DetailsLabel + lang + OptionalClose
      + IriRef(uri) + DetailsComment + lang + OptionalClose
      + IriRef(uri) + DetailsType + lang + DetailsTail, limit, "\n");
  }

  lemma OutgoingLimit(uri: string, lang: string, limit: nat)
    ensures LimitOf(QueryOutgoing(uri, lang, limit)) == Some(limit)
  {
    LimitRendered(OutgoingHead + IriRef(uri) + OutgoingWhere + lang + OutgoingMid + lang + RelationsTail, limit, "\n");
  }

  lemma IncomingLimit(uri: string, lang: string, limit: nat)
    ensures LimitOf(QueryIncoming(uri, lang, limit)) == Some(limit)
  {
    LimitRendered(IncomingHead + IriRef(uri) + IncomingWhere + lang + IncomingMid + lang + RelationsTail, limit, "\n");
  }

  /** The details query starts with its head and the IRI reference. */
  lemma DetailsStart(uri: string, lang: string, limit: nat)
    ensures QueryDetails(uri, lang, limit)[..|DetailsHead| + |uri| + 2] == DetailsHead + IriRef(uri)
  {
    TakeHead(DetailsHead + IriRef(uri), DetailsLabel, lang, OptionalClose, IriRef(uri), DetailsComment, lang,
             OptionalClose, IriRef(uri), DetailsType, lang, DetailsTail, NatToString(limit), "\n");
  }

  /** The entity IRI is spliced raw between '<' and '>': the details,
      outgoing and incoming queries read it back as one IRI reference ending
      where the splice ends if and only if every character of `uri` is
      allowed by IRIREF. */
  lemma DetailsIri(uri: string, lang: string, limit: nat)
    ensures IriEnd(QueryDetails(uri, lang, limit)[|DetailsHead| + 1..]) == Some(|uri|) <==> IriClean(uri)
  {
    DetailsStart(uri, lang, limit);
    IriAfterPrefix(QueryDetails(uri, lang, limit), DetailsHead, uri);
  }

  lemma OutgoingIri(uri: string, lang: string, limit: nat)
    ensures IriEnd(QueryOutgoing(uri, lang, limit)[|OutgoingHead| + 1..]) == Some(|uri|) <==> IriClean(uri)
  {
    var q := QueryOutgoing(uri, lang, limit);
    assert q[..|OutgoingHead| + |uri| + 2] == OutgoingHead + IriRef(uri);
    IriAfterPrefix(q, OutgoingHead, uri);
  }

  lemma IncomingIri(uri: string, lang: string, limit: nat)
    ensures IriEnd(QueryIncoming(uri, lang, limit)[|IncomingHead| + 1..]) == Some(|uri|) <==> IriClean(uri)
  {
    var q := QueryIncoming(uri, lang, limit);
    assert q[..|IncomingHead| + |uri| + 2] == IncomingHead + IriRef(uri);
    IriAfterPrefix(q, IncomingHead, uri);
  }

  /** Counterexample to the raw splice: an entity IRI holding '>' ends the
      IRI reference at that character; the rest b is read as query text. */
  lemma DetailsIriClosesEarly(a: string, b: string, lang: string, limit: nat)
    requires IriClean(a)
    ensures IriEnd(QueryDetails(a + ">" + b, lang, limit)[|DetailsHead| + 1..]) == Some(|a|)
  {
    DetailsStart(a + ">" + b, lang, limit);
    IriBreaksAfterPrefix(QueryDetails(a + ">" + b, lang, limit), DetailsHead, a, b);
  }

  // ---------------------------------------------------------------------------
  // Fetching and assembling
  // ---------------------------------------------------------------------------

  /** search_entities: one hit per result row, in row order. A hit's uri is
      the row's ?uri; its label is the row's ?label unless that is unbound or
      empty, and then the ?uri. A failed request is the error. */
  function SearchEntities(endpoint: Endpoint, term: string, lang: string, limit: nat): (r: Result<seq<SearchHit>, string>)
    ensures endpoint(QuerySearch(term, lang, limit)).Failed? <==> r.Failure?
    ensures r.Failure? ==> r.error == endpoint(QuerySearch(term, lang, limit)).reason
    ensures r.Success? ==> |r.value| == |endpoint(QuerySearch(term, lang, limit)).rows|
    ensures r.Success? ==> forall i :: 0 <= i < |r.value| ==>
      var row := endpoint(QuerySearch(term, lang, limit)).rows[i];
      r.value[i].uri == Val(row, "uri") &&
      r.value[i].labelText == (if Truthy(Val(row, "label")) then Val(row, "label") else Val(row, "uri"))
  {
    match endpoint(QuerySearch(term, lang, limit))
    case Failed(reason) => Failure(reason)
    case Rows(rows) => Success(MapHits(rows))
  }

  /** The details rows whose ?type is bound to a non-empty IRI, as type
      references, in row order. */
  function TypesOf(rows: seq<Row>): (types: seq<TypeRef>)
    ensures |types| <= |rows|
    ensures forall k :: 0 <= k < |types| ==> Truthy(types[k].uri)
    decreases |rows|
  {
    if rows == [] then []
    else
      var last := rows[|rows| - 1];
      TypesOf(rows[..|rows| - 1]) + (if Truthy(Val(last, "type")) then [TypeOf(last)] else [])
  }

  /** Reference definition of the filter: the positions of the typed rows,
      increasing, and all of them. */
  function TypedIndices(rows: seq<Row>): (ix: seq<nat>)
    ensures forall k :: 0 <= k < |ix| ==> ix[k] < |rows| && Truthy(Val(rows[ix[k]], "type"))
    ensures forall k, l :: 0 <= k < l < |ix| ==> ix[k] < ix[l]
    ensures forall i :: 0 <= i < |rows| && Truthy(Val(rows[i], "type")) ==> i in ix
    decreases |rows|
  {
    if rows == [] then []
    else
      var n := |rows| - 1;
      var front := rows[..n];
      assert forall i :: 0 <= i < n ==> front[i] == rows[i];
      TypedIndices(front) + (if Truthy(Val(rows[n], "type")) then [n] else [])
  }

  /** The types of an entity are exactly the typed rows, in order: the k-th
      type comes from the k-th typed row. */
  lemma {:induction false} TypesFollowRows(rows: seq<Row>)
    ensures |TypesOf(rows)| == |TypedIndices(rows)|
    ensures forall k :: 0 <= k < |TypesOf(rows)| ==> TypesOf(rows)[k] == TypeOf(rows[TypedIndices(rows)[k]])
    decreases |rows|
  {
    if rows != [] {
      var n := |rows| - 1;
      var front := rows[..n];
      TypesFollowRows(front);
      assert forall i :: 0 <= i < n ==> front[i] == rows[i];
    }
  }

  /** get_entity once its three result sets are in: the label and the
      comment come from the first details row only (label falling back to
      the entity IRI, comment to ""), the types from every typed details row,
      and one relation per outgoing and incoming row. */
  function AssembleEntity(uri: string, details: seq<Row>, outgoing: seq<Row>, incoming: seq<Row>): (v: EntityView)
    ensures details != [] && Truthy(Val(details[0], "label")) ==> v.labelText == details[0]["label"]
    ensures !(details != [] && Truthy(Val(details[0], "label"))) ==> v.labelText == uri
    ensures v.comment == (if details != [] && "comment" in details[0] then details[0]["comment"] else "")
    ensures v.types == TypesOf(details)
    ensures |v.outgoing| == |outgoing| && forall i :: 0 <= i < |outgoing| ==> v.outgoing[i] == OutRelOf(outgoing[i])
    ensures |v.incoming| == |incoming| && forall i :: 0 <= i < |incoming| ==> v.incoming[i] == InRelOf(incoming[i])
  {
    var first: Row := if details != [] then details[0] else map[];
    EntityView(OrElse(Val(first, "label"), uri), OrElse(Val(first, "comment"), ""),
               TypesOf(details), MapOut(outgoing), MapIn(incoming))
  }

  /** get_entity: the details, outgoing and incoming queries, sent in that
      order; the first failure is raised and nothing after it is sent. */
  function GetEntity(endpoint: Endpoint, uri: string, lang: string, limit: nat): (r: Result<EntityView, string>)
    ensures r.Success? <==> endpoint(QueryDetails(uri, lang, limit)).Rows?
                            && endpoint(QueryOutgoing(uri, lang, limit)).Rows?
                            && endpoint(QueryIncoming(uri, lang, limit)).Rows?
    ensures endpoint(QueryDetails(uri, lang, limit)).Failed? ==>
      r == Failure(endpoint(QueryDetails(uri, lang, limit)).reason)
    ensures endpoint(QueryDetails(uri, lang, limit)).Rows? && endpoint(QueryOutgoing(uri, lang, limit)).Failed? ==>
      r == Failure(endpoint(QueryOutgoing(uri, lang, limit)).reason)
    ensures endpoint(QueryDetails(uri, lang, limit)).Rows? && endpoint(QueryOutgoing(uri, lang, limit)).Rows?
            && endpoint(QueryIncoming(uri, lang, limit)).Failed? ==>
      r == Failure(endpoint(QueryIncoming(uri, lang, limit)).reason)
    ensures r.Success? ==> r.value == AssembleEntity(uri, endpoint(QueryDetails(uri, lang, limit)).rows,
                                                     endpoint(QueryOutgoing(uri, lang, limit)).rows,
                                                     endpoint(QueryIncoming(uri, lang, limit)).rows)
  {
    match endpoint(QueryDetails(uri, lang, limit))
    case Failed(reason) => Failure(reason)
    case Rows(details) =>
      match endpoint(QueryOutgoing(uri, lang, limit))
      case Failed(reason) => Failure(reason)
      case Rows(outgoing) =>
        match endpoint(QueryIncoming(uri, lang, limit))
        case Failed(reason) => Failure(reason)
        case Rows(incoming) => Success(AssembleEntity(uri, details, outgoing, incoming))
  }

  /** A bound, non-empty IRI always gets a non-empty display label, whatever
      the label variable holds. */
  lemma LabelNeverBlank(r: Row, labelKey: string, uriKey: string)
    requires Truthy(Val(r, uriKey))
    ensures Truthy(LabelOrUri(r, labelKey, uriKey))
  {
  }

  /** The entity's display label is never empty for a non-empty IRI. */
  lemma EntityLabelNonEmpty(uri: string, details: seq<Row>, outgoing: seq<Row>, incoming: seq<Row>)
    requires uri != ""
    ensures AssembleEntity(uri, details, outgoing, incoming).labelText != ""
  {
  }
}
