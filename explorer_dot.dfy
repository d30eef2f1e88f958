/** The Graphviz DOT text the Streamlit explorer draws for an entity
    (graph_dot in pages/linked_data_explorer.py): a fixed header, the
    centre node, an edge and a node per relation, and a closing brace, one
    statement per line. Every identifier and label goes through esc. */
module ExplorerDot {
  import opened Text
  import opened Escape
  import opened Bindings
  import opened DotLexer

  /** The text of an optional field, "" when there is none. */
  function TextOf(v: Option<string>): string {
    if v.Some? then v.value else ""
  }

  /** esc: a missing or empty field becomes "", and every '"' is escaped.
      Removing the escapes gives the field's text back. */
  function Esc(v: Option<string>): (r: string)
    ensures Unescape(r) == TextOf(v)
    ensures |r| == |TextOf(v)| + QuoteCount(TextOf(v))
  {
    UnescapeEscape(TextOf(v));
    EscapeQuotes(TextOf(v))
  }

  const GraphOpen := "digraph G {"
  const RankDir := "  rankdir=LR;"
  const NodeStyle := "  node [" + "shape=" + "ellipse, " + "style=" + "filled, " + "color=" + "\"#0f62fe22\", "
    + "fontname=" + "\"Arial\"];"
  /** The attributes that set the centre node apart. */
  const CenterStyle := ", fillcolor=" + "\"#0f62fe55\"" + ", style=" + "\"filled,bold\"" + "];"
  const GraphClose := "}"

  /** One statement line of the graph. */
  datatype Stmt =
    | Fixed(text: string)                                                  // a header or closing line
    | Center(centerUri: string, centerLabel: string)                       // the entity's own node
    | Edge(src: Option<string>, dst: Option<string>, caption: Option<string>)
    | Node(id: Option<string>, caption: Option<string>)

  /** The text of a statement line, every field through esc. */
  function Render(st: Stmt): string {
    match st
    case Fixed(text) => text
    case Center(u, l) =>
      "  " + "\"" + Esc(Some(u)) + "\"" + " [label=" + "\"" + Esc(Some(l)) + "\"" + CenterStyle
    case Edge(a, b, c) =>
      "  " + "\"" + Esc(a) + "\"" + " -> " + "\"" + Esc(b) + "\"" + " [label=" + "\"" + Esc(c) + "\"" + "];"
    case Node(a, c) =>
      "  " + "\"" + Esc(a) + "\"" + " [label=" + "\"" + Esc(c) + "\"" + "];"
  }

  /** The lines of a statement list, in order. */
  function RenderAll(stmts: seq<Stmt>): (lines: seq<string>)
    ensures |lines| == |stmts|
    decreases |stmts|
  {
    if stmts == [] then [] else RenderAll(stmts[..|stmts| - 1]) + [Render(stmts[|stmts| - 1])]
  }

  /** The i-th line is the text of the i-th statement. */
  lemma {:induction false} RenderAllIndex(stmts: seq<Stmt>)
    ensures forall i :: 0 <= i < |stmts| ==> RenderAll(stmts)[i] == Render(stmts[i])
    decreases |stmts|
  {
    if stmts != [] {
      var front := stmts[..|stmts| - 1];
      RenderAllIndex(front);
      assert forall i :: 0 <= i < |front| ==> front[i] == stmts[i];
    }
  }

  /** The two statements of an outgoing relation: centre -> object labelled
      with the predicate, then the object node. */
  function OutStmts(centerUri: string, rels: seq<OutRel>): (stmts: seq<Stmt>)
    ensures |stmts| == 2 * |rels|
    ensures forall k :: 0 <= k < |rels| ==>
      stmts[2 * k] == Edge(Some(centerUri), rels[k].objectIri, rels[k].predicateLabel)
      && stmts[2 * k + 1] == Node(rels[k].objectIri, rels[k].objectLabel)
    decreases |rels|
  {
    if rels == [] then []
    else
      var rel := rels[|rels| - 1];
      var front := rels[..|rels| - 1];
      assert forall k :: 0 <= k < |front| ==> front[k] == rels[k];
      OutStmts(centerUri, front) + [Edge(Some(centerUri), rel.objectIri, rel.predicateLabel), Node(rel.objectIri, rel.objectLabel)]
  }

  /** The two statements of an incoming relation: subject -> centre labelled
      with the predicate, then the subject node. */
  function InStmts(centerUri: string, rels: seq<InRel>): (stmts: seq<Stmt>)
    ensures |stmts| == 2 * |rels|
    ensures forall k :: 0 <= k < |rels| ==>
      stmts[2 * k] == Edge(rels[k].subjectIri, Some(centerUri), rels[k].predicateLabel)
      && stmts[2 * k + 1] == Node(rels[k].subjectIri, rels[k].subjectLabel)
    decreases |rels|
  {
    if rels == [] then []
    else
      var rel := rels[|rels| - 1];
      var front := rels[..|rels| - 1];
      assert forall k :: 0 <= k < |front| ==> front[k] == rels[k];
      InStmts(centerUri, front) + [Edge(rel.subjectIri, Some(centerUri), rel.predicateLabel), Node(rel.subjectIri, rel.subjectLabel)]
  }

  function HeaderStmts(centerUri: string, centerLabel: string): seq<Stmt> {
    [Fixed(GraphOpen), Fixed(RankDir), Fixed(NodeStyle), Center(centerUri, centerLabel)]
  }

  /** The statements of the graph: 5 + 2 * (|outgoing| + |incoming|) of
      them, opening with `digraph G {`, the centre node fourth, and closing
      with `}`. */
  function DotStmts(centerUri: string, centerLabel: string, outgoing: seq<OutRel>, incoming: seq<InRel>): (stmts: seq<Stmt>)
    ensures |stmts| == 5 + 2 * (|outgoing| + |incoming|)
    ensures stmts[0] == Fixed(GraphOpen) && stmts[3] == Center(centerUri, centerLabel)
    ensures stmts[|stmts| - 1] == Fixed(GraphClose)
  {
    HeaderStmts(centerUri, centerLabel) + OutStmts(centerUri, outgoing) + InStmts(centerUri, incoming) + [Fixed(GraphClose)]
  }

  /** After the four header lines come the outgoing relations, then the
      incoming ones, two statements per relation: the edge, then the node
      of the other end. */
  lemma DotStmtsLayout(centerUri: string, centerLabel: string, outgoing: seq<OutRel>, incoming: seq<InRel>)
    ensures forall k :: 0 <= k < |outgoing| ==>
      DotStmts(centerUri, centerLabel, outgoing, incoming)[4 + 2 * k] == Edge(Some(centerUri), outgoing[k].objectIri, outgoing[k].predicateLabel)
      && DotStmts(centerUri, centerLabel, outgoing, incoming)[5 + 2 * k] == Node(outgoing[k].objectIri, outgoing[k].objectLabel)
    ensures forall k :: 0 <= k < |incoming| ==>
      DotStmts(centerUri, centerLabel, outgoing, incoming)[4 + 2 * |outgoing| + 2 * k] == Edge(incoming[k].subjectIri, Some(centerUri), incoming[k].predicateLabel)
      && DotStmts(centerUri, centerLabel, outgoing, incoming)[5 + 2 * |outgoing| + 2 * k] == Node(incoming[k].subjectIri, incoming[k].subjectLabel)
  {
    var stmts := DotStmts(centerUri, centerLabel, outgoing, incoming);
    var outs := OutStmts(centerUri, outgoing);
    var ins := InStmts(centerUri, incoming);
    var head := HeaderStmts(centerUri, centerLabel);
    assert stmts == head + outs + ins + [Fixed(GraphClose)];
    forall k | 0 <= k < |outgoing|
      ensures stmts[4 + 2 * k] == outs[2 * k] && stmts[5 + 2 * k] == outs[2 * k + 1]
    {
    }
    forall k | 0 <= k < |incoming|
      ensures stmts[4 + |outs| + 2 * k] == ins[2 * k] && stmts[5 + |outs| + 2 * k] == ins[2 * k + 1]
    {
    }
  }

  lemma RenderAllAppend(a: seq<Stmt>, b: seq<Stmt>)
    ensures RenderAll(a + b) == RenderAll(a) + RenderAll(b)
  {
    RenderAllIndex(a);
    RenderAllIndex(b);
    RenderAllIndex(a + b);
    assert forall i :: 0 <= i < |a| + |b| ==> (a + b)[i] == if i < |a| then a[i] else b[i - |a|];
  }

  /** Appending the texts of two statements to the lines of a statement
      list gives the lines of the extended list. */
  lemma RenderSnoc(lines: seq<string>, done: seq<Stmt>, s1: Stmt, s2: Stmt)
    requires lines == RenderAll(done)
    ensures lines + [Render(s1), Render(s2)] == RenderAll(done + [s1, s2])
  {
    RenderAllAppend(done, [s1, s2]);
  }

  lemma RenderHeader(centerUri: string, centerLabel: string)
    ensures RenderAll(HeaderStmts(centerUri, centerLabel)) == [GraphOpen, RankDir, NodeStyle, Render(Center(centerUri, centerLabel))]
  {
    RenderAllIndex(HeaderStmts(centerUri, centerLabel));
  }

  /** Regrouping a statement list extended by two statements. */
  lemma ConcatSnoc(a: seq<Stmt>, b: seq<Stmt>, s1: Stmt, s2: Stmt)
    ensures a + b + [s1, s2] == a + (b + [s1, s2])
  {
  }

  lemma OutStmtsSnoc(centerUri: string, rels: seq<OutRel>, i: nat)
    requires i < |rels|
    ensures OutStmts(centerUri, rels[..i + 1]) == OutStmts(centerUri, rels[..i])
      + [Edge(Some(centerUri), rels[i].objectIri, rels[i].predicateLabel), Node(rels[i].objectIri, rels[i].objectLabel)]
  {
    assert rels[..i + 1][..i] == rels[..i];
  }

  lemma InStmtsSnoc(centerUri: string, rels: seq<InRel>, i: nat)
    requires i < |rels|
    ensures InStmts(centerUri, rels[..i + 1]) == InStmts(centerUri, rels[..i])
      + [Edge(rels[i].subjectIri, Some(centerUri), rels[i].predicateLabel), Node(rels[i].subjectIri, rels[i].subjectLabel)]
  {
    assert rels[..i + 1][..i] == rels[..i];
  }

  /** One turn of the outgoing loop keeps its lines those of the
      statements before the loop and the relations handled so far. */
  lemma OutStep(lines: seq<string>, head: seq<Stmt>, centerUri: string, outgoing: seq<OutRel>, i: nat)
    requires i < |outgoing|
    requires lines == RenderAll(head + OutStmts(centerUri, outgoing[..i]))
    ensures lines + [Render(Edge(Some(centerUri), outgoing[i].objectIri, outgoing[i].predicateLabel)),
                     Render(Node(outgoing[i].objectIri, outgoing[i].objectLabel))]
      == RenderAll(head + OutStmts(centerUri, outgoing[..i + 1]))
  {
    var edge, node := Edge(Some(centerUri), outgoing[i].objectIri, outgoing[i].predicateLabel), Node(outgoing[i].objectIri, outgoing[i].objectLabel);
    OutStmtsSnoc(centerUri, outgoing, i);
    ConcatSnoc(head, OutStmts(centerUri, outgoing[..i]), edge, node);
    RenderSnoc(lines, head + OutStmts(centerUri, outgoing[..i]), edge, node);
  }

  /** The same for the incoming loop. */
  lemma InStep(lines: seq<string>, head: seq<Stmt>, centerUri: string, incoming: seq<InRel>, i: nat)
    requires i < |incoming|
    requires lines == RenderAll(head + InStmts(centerUri, incoming[..i]))
    ensures lines + [Render(Edge(incoming[i].subjectIri, Some(centerUri), incoming[i].predicateLabel)),
                     Render(Node(incoming[i].subjectIri, incoming[i].subjectLabel))]
      == RenderAll(head + InStmts(centerUri, incoming[..i + 1]))
  {
    var edge, node := Edge(incoming[i].subjectIri, Some(centerUri), incoming[i].predicateLabel), Node(incoming[i].subjectIri, incoming[i].subjectLabel);
    InStmtsSnoc(centerUri, incoming, i);
    ConcatSnoc(head, InStmts(centerUri, incoming[..i]), edge, node);
    RenderSnoc(lines, head + InStmts(centerUri, incoming[..i]), edge, node);
  }

  /** After both loops, the closing brace completes the graph's lines. */
  lemma CloseStep(lines: seq<string>, centerUri: string, centerLabel: string, outgoing: seq<OutRel>, incoming: seq<InRel>)
    requires lines == RenderAll(HeaderStmts(centerUri, centerLabel) + OutStmts(centerUri, outgoing) + InStmts(centerUri, incoming))
    ensures lines + [GraphClose] == RenderAll(DotStmts(centerUri, centerLabel, outgoing, incoming))
  {
    RenderAllAppend(HeaderStmts(centerUri, centerLabel) + OutStmts(centerUri, outgoing) + InStmts(centerUri, incoming), [Fixed(GraphClose)]);
  }

  /** graph_dot: appends the header lines, then two lines per outgoing
      relation, then two per incoming relation, then the closing brace, and
      joins the lines with line feeds. */
  method GraphDot(centerUri: string, centerLabel: string, outgoing: seq<OutRel>, incoming: seq<InRel>) returns (dot: string)
    ensures dot == Join(RenderAll(DotStmts(centerUri, centerLabel, outgoing, incoming)), "\n")
  {
    var lines := [GraphOpen, RankDir, NodeStyle, Render(Center(centerUri, centerLabel))];
    RenderHeader(centerUri, centerLabel);
    ghost var head := HeaderStmts(centerUri, centerLabel);
    lines := AppendOutgoing(lines, head, centerUri, outgoing);
    lines := AppendIncoming(lines, head + OutStmts(centerUri, outgoing), centerUri, incoming);
    CloseStep(lines, centerUri, centerLabel, outgoing, incoming);
    lines := lines + [GraphClose];
    dot := Join(lines, "\n");
  }

  /** The loop over the outgoing relations: the edge line, then the object's
      node line, for each relation in turn. */
  method AppendOutgoing(lines0: seq<string>, ghost head: seq<Stmt>, centerUri: string, outgoing: seq<OutRel>)
    returns (lines: seq<string>)
    requires lines0 == RenderAll(head)
    ensures lines == RenderAll(head + OutStmts(centerUri, outgoing))
  {
    lines := lines0;
    assert head + OutStmts(centerUri, outgoing[..0]) == head;
    for i := 0 to |outgoing|
      invariant lines == RenderAll(head + OutStmts(centerUri, outgoing[..i]))
    {
      OutStep(lines, head, centerUri, outgoing, i);
      var rel := outgoing[i];
      lines := lines + [Render(Edge(Some(centerUri), rel.objectIri, rel.predicateLabel)), Render(Node(rel.objectIri, rel.objectLabel))];
    }
    assert outgoing[..|outgoing|] == outgoing;
  }

  /** The loop over the incoming relations: the edge line, then the
      subject's node line, for each relation in turn. */
  method AppendIncoming(lines0: seq<string>, ghost head: seq<Stmt>, centerUri: string, incoming: seq<InRel>)
    returns (lines: seq<string>)
    requires lines0 == RenderAll(head)
    ensures lines == RenderAll(head + InStmts(centerUri, incoming))
  {
    lines := lines0;
    assert head + InStmts(centerUri, incoming[..0]) == head;
    for i := 0 to |incoming|
      invariant lines == RenderAll(head + InStmts(centerUri, incoming[..i]))
    {
      InStep(lines, head, centerUri, incoming, i);
      var rel := incoming[i];
      lines := lines + [Render(Edge(rel.subjectIri, Some(centerUri), rel.predicateLabel)), Render(Node(rel.subjectIri, rel.subjectLabel))];
    }
    assert incoming[..|incoming|] == incoming;
  }

  // ---------------------------------------------------------------------------
  // Reading the edges back
  // ---------------------------------------------------------------------------

  /** An edge line, regrouped the way a reader meets its parts. */
  lemma EdgeShape(e1: string, e2: string, e3: string)
    ensures "  " + "\"" + e1 + "\"" + " -> " + "\"" + e2 + "\"" + " [label=" + "\"" + e3 + "\"" + "];"
      == "  \"" + (e1 + "\"" + (" -> \"" + (e2 + "\"" + (" [label=\"" + (e3 + "\"" + "];")))))
  {
    assert "  " + "\"" == "  \"";
    assert " -> " + "\"" == " -> \"";
    assert " [label=" + "\"" == " [label=\"";
  }

  /** An edge whose three fields hold no backslash is read by Graphviz as an
      edge between exactly those two names, labelled with exactly that text;
      a missing field reads as "". */
  lemma EdgeReadBack(a: Option<string>, b: Option<string>, c: Option<string>)
    requires DotSafe(TextOf(a)) && DotSafe(TextOf(b)) && DotSafe(TextOf(c))
    ensures ReadEdge(Render(Edge(a, b, c))) == Some((TextOf(a), TextOf(b), TextOf(c)))
  {
    var e1, e2, e3 := Esc(a), Esc(b), Esc(c);
    EdgeShape(e1, e2, e3);
    var r2 := " [label=\"" + (e3 + "\"" + "];");
    var r1 := " -> \"" + (e2 + "\"" + r2);
    ReadQuotedEscaped("  \"", TextOf(a), r1);
    ReadQuotedEscaped(" -> \"", TextOf(b), r2);
    ReadQuotedEscaped(" [label=\"", TextOf(c), "];");
  }

  /** A label ending in a backslash (esc leaves backslashes alone) escapes
      the quote that should close it: the edge statement is no longer read
      as one. */
  lemma TrailingBackslashBreaksEdge(a: Option<string>, b: Option<string>, t: string)
    requires DotSafe(TextOf(a)) && DotSafe(TextOf(b)) && DotSafe(t)
    ensures ReadEdge(Render(Edge(a, b, Some(t + "\\")))) == None
  {
    var e1, e2, e3 := Esc(a), Esc(b), Esc(Some(t + "\\"));
    EdgeShape(e1, e2, e3);
    var r2 := " [label=\"" + (e3 + "\"" + "];");
    var r1 := " -> \"" + (e2 + "\"" + r2);
    ReadQuotedEscaped("  \"", TextOf(a), r1);
    ReadQuotedEscaped(" -> \"", TextOf(b), r2);
    ReadQuotedRunsOn(" [label=\"", t, "];");
  }

  // ---------------------------------------------------------------------------
  // One statement per line
  // ---------------------------------------------------------------------------

  /** A field without a line feed. */
  predicate OneLine(v: Option<string>) {
    '\n' !in TextOf(v)
  }

  predicate OutRelOneLine(rel: OutRel) {
    OneLine(rel.objectIri) && OneLine(rel.predicateLabel) && OneLine(rel.objectLabel)
  }

  predicate InRelOneLine(rel: InRel) {
    OneLine(rel.subjectIri) && OneLine(rel.predicateLabel) && OneLine(rel.subjectLabel)
  }

  lemma EscOneLine(v: Option<string>)
    requires OneLine(v)
    ensures '\n' !in Esc(v)
  {
    EscapeKeepsOut(TextOf(v), '\n');
  }

  /** The fixed parts of the statement lines hold no line feed. */
  lemma PiecesOneLine()
    ensures '\n' !in "  " && '\n' !in "\"" && '\n' !in " -> " && '\n' !in " [label=" && '\n' !in "];"
  {
  }

  lemma HeaderPiecesOneLine()
    ensures '\n' !in GraphOpen && '\n' !in RankDir && '\n' !in GraphClose
  {
  }

  lemma NodeStyleOneLine()
    ensures '\n' !in NodeStyle
  {
  }

  lemma CenterStyleOneLine()
    ensures '\n' !in CenterStyle
  {
  }

  /** Line-feed-free pieces make a line-feed-free concatenation. */
  lemma ConcatOneLine(a: string, b: string, c: string, d: string, e: string, f: string, g: string,
                      h: string, i: string, j: string, k: string, l: string, m: string)
    requires '\n' !in a && '\n' !in b && '\n' !in c && '\n' !in d && '\n' !in e && '\n' !in f && '\n' !in g
    requires '\n' !in h && '\n' !in i && '\n' !in j && '\n' !in k && '\n' !in l && '\n' !in m
    ensures '\n' !in a + b + c + d + e + f + g + h + i + j + k + l + m
  {
  }

  /** A statement whose fields hold no line feed, or one of the fixed lines. */
  predicate StmtOneLine(st: Stmt) {
    match st
    case Fixed(text) => text == GraphOpen || text == RankDir || text == NodeStyle || text == GraphClose
    case Center(u, l) => OneLine(Some(u)) && OneLine(Some(l))
    case Edge(a, b, c) => OneLine(a) && OneLine(b) && OneLine(c)
    case Node(a, c) => OneLine(a) && OneLine(c)
  }

  predicate AllOneLine(stmts: seq<Stmt>) {
    forall i :: 0 <= i < |stmts| ==> StmtOneLine(stmts[i])
  }

  /** Such a statement renders as a single line. */
  lemma RenderOneLine(st: Stmt)
    requires StmtOneLine(st)
    ensures Free(Render(st), '\n')
  {
    PiecesOneLine();
    match st
    case Fixed(_) => HeaderPiecesOneLine(); NodeStyleOneLine();
    case Center(u, l) =>
      EscOneLine(Some(u)); EscOneLine(Some(l)); CenterStyleOneLine();
      ConcatOneLine("  ", "\"", Esc(Some(u)), "\"", " [label=", "\"", Esc(Some(l)), "\"",
                    CenterStyle, "", "", "", "");
    case Edge(a, b, c) =>
      EscOneLine(a); EscOneLine(b); EscOneLine(c);
      ConcatOneLine("  ", "\"", Esc(a), "\"", " -> ", "\"", Esc(b), "\"", " [label=", "\"", Esc(c), "\"", "];");
    case Node(a, c) =>
      EscOneLine(a); EscOneLine(c);
      ConcatOneLine("  ", "\"", Esc(a), "\"", " [label=", "\"", Esc(c), "\"", "];", "", "", "", "");
  }

  lemma OutStmtsOneLine(centerUri: string, rels: seq<OutRel>)
    requires OneLine(Some(centerUri))
    requires forall k :: 0 <= k < |rels| ==> OutRelOneLine(rels[k])
    ensures AllOneLine(OutStmts(centerUri, rels))
  {
    var stmts := OutStmts(centerUri, rels);
    forall i | 0 <= i < |stmts| ensures StmtOneLine(stmts[i]) {
      var k := i / 2;
      assert i == 2 * k || i == 2 * k + 1;
      assert OutRelOneLine(rels[k]);
    }
  }

  lemma InStmtsOneLine(centerUri: string, rels: seq<InRel>)
    requires OneLine(Some(centerUri))
    requires forall k :: 0 <= k < |rels| ==> InRelOneLine(rels[k])
    ensures AllOneLine(InStmts(centerUri, rels))
  {
    var stmts := InStmts(centerUri, rels);
    forall i | 0 <= i < |stmts| ensures StmtOneLine(stmts[i]) {
      var k := i / 2;
      assert i == 2 * k || i == 2 * k + 1;
      assert InRelOneLine(rels[k]);
    }
  }

  lemma AllOneLineAppend(a: seq<Stmt>, b: seq<Stmt>)
    requires AllOneLine(a) && AllOneLine(b)
    ensures AllOneLine(a + b)
  {
    assert forall i :: 0 <= i < |a + b| ==> (a + b)[i] == if i < |a| then a[i] else b[i - |a|];
  }

  /** When no field holds a line feed, splitting the DOT text at line feeds
      gives back exactly the statement lines: 5 + 2 * (|outgoing| +
      |incoming|) of them. */
  lemma DotLinesSplit(centerUri: string, centerLabel: string, outgoing: seq<OutRel>, incoming: seq<InRel>)
    requires OneLine(Some(centerUri)) && OneLine(Some(centerLabel))
    requires forall k :: 0 <= k < |outgoing| ==> OutRelOneLine(outgoing[k])
    requires forall k :: 0 <= k < |incoming| ==> InRelOneLine(incoming[k])
    ensures Split(Join(RenderAll(DotStmts(centerUri, centerLabel, outgoing, incoming)), "\n"), '\n')
      == RenderAll(DotStmts(centerUri, centerLabel, outgoing, incoming))
    ensures |Split(Join(RenderAll(DotStmts(centerUri, centerLabel, outgoing, incoming)), "\n"), '\n')|
      == 5 + 2 * (|outgoing| + |incoming|)
  {
    var head := HeaderStmts(centerUri, centerLabel);
    var outs, ins := OutStmts(centerUri, outgoing), InStmts(centerUri, incoming);
    OutStmtsOneLine(centerUri, outgoing);
    InStmtsOneLine(centerUri, incoming);
    assert AllOneLine(head);
    assert AllOneLine([Fixed(GraphClose)]);
    AllOneLineAppend(head, outs);
    AllOneLineAppend(head + outs, ins);
    AllOneLineAppend(head + outs + ins, [Fixed(GraphClose)]);
    var stmts := DotStmts(centerUri, centerLabel, outgoing, incoming);
    var lines := RenderAll(stmts);
    RenderAllIndex(stmts);
    forall i | 0 <= i < |lines|
      ensures Free(lines[i], '\n')
    {
      RenderOneLine(stmts[i]);
    }
    assert "\n" == ['\n'];
    SplitJoin(lines, '\n');
  }
}
