/** Intent normalisation and dispatch: `classify_query` post-processes the
    collaborator's reply with `.strip().lower()`, and every front-end routes
    the resulting decision through an if/elif chain whose `else` branch
    calls `ask_question`. The chains differ between versions only in which
    tokens they recognise. */
module Intent {
  import opened Text

  // ---------------------------------------------------------------------
  // Normalisation
  // ---------------------------------------------------------------------

  /** `reply.strip().lower()`. */
  function Normalize(reply: string): (r: string)
    ensures NoEdgeSpace(r) && NoUpper(r)
    ensures |r| <= |reply|
    ensures r == "" <==> AllSpace(reply)
  {
    StripEmptyIff(reply);
    Lower(Strip(reply))
  }

  /** The normal form is the reply's core, lower-cased: whatever `i` and `j`
      mark its first and last non-space character, with only whitespace
      before `i` and from `j` on, normalising gives `Lower(reply[i..j])`. */
  lemma NormalizeCore(reply: string, i: nat, j: nat)
    requires i < j <= |reply| && !IsSpace(reply[i]) && !IsSpace(reply[j - 1])
    requires forall k :: 0 <= k < i ==> IsSpace(reply[k])
    requires forall k :: j <= k < |reply| ==> IsSpace(reply[k])
    ensures Normalize(reply) == Lower(reply[i..j])
  {
    StripIs(reply, i, j);
  }

  /** A normalised string: no edge whitespace and no upper-case letter. */
  predicate IsNormal(s: string) { NoEdgeSpace(s) && NoUpper(s) }

  /** Normalised strings are exactly the fixed points of normalisation. */
  lemma NormalIffFixed(s: string)
    ensures IsNormal(s) <==> Normalize(s) == s
  {
    if IsNormal(s) {
      StripFixed(s);
      LowerFixed(s);
    }
  }

  /** Normalising twice is normalising once. */
  lemma NormalizeIdempotent(s: string)
    ensures Normalize(Normalize(s)) == Normalize(s)
  {
    NormalIffFixed(Normalize(s));
  }

  /** The tokens the prompts ask for are their own normal forms. */
  lemma TokensAreFixed()
    ensures Normalize("graph") == "graph"
    ensures Normalize("insight") == "insight"
    ensures Normalize("quality_check") == "quality_check"
    ensures Normalize("update_data") == "update_data"
    ensures Normalize("text") == "text"
  {
    TokensAreNormal();
    NormalIffFixed("graph");
    NormalIffFixed("insight");
    NormalIffFixed("quality_check");
    NormalIffFixed("update_data");
    NormalIffFixed("text");
  }

  lemma TokensAreNormal()
    ensures IsNormal("graph") && IsNormal("insight") && IsNormal("quality_check") && IsNormal("update_data") && IsNormal("text")
  {
  }

  /** A reply in capitals with a trailing line feed normalises to the token. */
  lemma ShoutedReplyNormalizes()
    ensures Normalize("GRAPH\n") == "graph"
  {
    var a := "GRAPH\n";
    StripIs(a, 0, 5);
    assert a[0..5] == "GRAPH";
    var l := Lower("GRAPH");
    assert l[0] == 'g' && l[1] == 'r' && l[2] == 'a' && l[3] == 'p' && l[4] == 'h';
    assert l == "graph";
  }

  /** A padded, capitalised reply normalises to the token. */
  lemma PaddedReplyNormalizes()
    ensures Normalize("  Insight ") == "insight"
  {
    var b := "  Insight ";
    StripIs(b, 2, 9);
    assert b[2..9] == "Insight";
    var l := Lower("Insight");
    assert l[0] == LowerChar('I') == 'i';
    assert forall i :: 1 <= i < 7 ==> l[i] == "Insight"[i];
    assert l == "insight";
  }

  // ---------------------------------------------------------------------
  // Handlers and chains
  // ---------------------------------------------------------------------

  /** The five handlers of `req_functions`. */
  datatype Handler = GeneratePlot | GenerateInsight | CheckDataQuality | UpdateData | AskQuestion

  /** An if/elif chain: each branch compares the decision with one token;
      the first equal token selects its handler. */
  type Chain = seq<(string, Handler)>

  /** The tokens of a chain, in order. */
  function Tokens(chain: Chain): (r: seq<string>)
    ensures |r| == |chain| && forall k :: 0 <= k < |chain| ==> r[k] == chain[k].0
  {
    seq(|chain|, k requires 0 <= k < |chain| => chain[k].0)
  }

  /** Running the chain on a decision; the `else` branch is `ask_question`. */
  function Route(chain: Chain, decision: string): Handler {
    if |chain| == 0 then AskQuestion
    else if decision == chain[0].0 then chain[0].1
    else Route(chain[1..], decision)
  }

  /** A decision equal to no token falls through to `ask_question`. */
  lemma {:induction false} RouteFallback(chain: Chain, decision: string)
    requires decision !in Tokens(chain)
    ensures Route(chain, decision) == AskQuestion
  {
    if |chain| > 0 {
      assert Tokens(chain[1..]) == Tokens(chain)[1..];
      RouteFallback(chain[1..], decision);
    }
  }

  /** A decision equal to the `k`-th token, and to no earlier one, reaches
      the `k`-th handler. */
  lemma {:induction false} RouteFirstMatch(chain: Chain, decision: string, k: nat)
    requires k < |chain| && chain[k].0 == decision
    requires forall j :: 0 <= j < k ==> chain[j].0 != decision
    ensures Route(chain, decision) == chain[k].1
  {
    if k > 0 {
      RouteFirstMatch(chain[1..], decision, k - 1);
    }
  }

  /** The handler a decision reaches is the fallback or a handler of the
      chain whose token equals the decision. */
  lemma {:induction false} RouteSound(chain: Chain, decision: string)
    ensures Route(chain, decision) == AskQuestion
         || exists k :: 0 <= k < |chain| && chain[k] == (decision, Route(chain, decision))
  {
    if |chain| > 0 && decision != chain[0].0 {
      RouteSound(chain[1..], decision);
      if Route(chain, decision) != AskQuestion {
        var k :| 0 <= k < |chain| - 1 && chain[1..][k] == (decision, Route(chain, decision));
        assert chain[k + 1] == (decision, Route(chain, decision));
      }
    }
  }

  /** test2.py: graph only. */
  const TwoWay: Chain := [("graph", GeneratePlot)]

  /** v1/test3.py: graph and insight. */
  const ThreeWay: Chain := [("graph", GeneratePlot), ("insight", GenerateInsight)]

  /** v1/test4.py: graph, insight and quality_check. */
  const FourWay: Chain := ThreeWay + [("quality_check", CheckDataQuality)]

  /** test5.py and the Streamlit front-ends: all four tokens. */
  const FiveWay: Chain := FourWay + [("update_data", UpdateData)]

  /** The five-way chain: each of the four tokens reaches its own handler
      and every other decision reaches `ask_question`. */
  lemma FiveWayRouting(d: string)
    ensures Route(FiveWay, d) == GeneratePlot <==> d == "graph"
    ensures Route(FiveWay, d) == GenerateInsight <==> d == "insight"
    ensures Route(FiveWay, d) == CheckDataQuality <==> d == "quality_check"
    ensures Route(FiveWay, d) == UpdateData <==> d == "update_data"
    ensures Route(FiveWay, d) == AskQuestion <==> d !in {"graph", "insight", "quality_check", "update_data"}
  {
    var c := FiveWay;
    assert c == [("graph", GeneratePlot), ("insight", GenerateInsight), ("quality_check", CheckDataQuality), ("update_data", UpdateData)];
    assert Tokens(c) == ["graph", "insight", "quality_check", "update_data"];
    if d in Tokens(c) {
      var k :| 0 <= k < |c| && Tokens(c)[k] == d;
      RouteFirstMatch(c, d, k);
    } else {
      RouteFallback(c, d);
    }
  }

  /** The four-way chain: "update_data" is not recognised. */
  lemma FourWayRouting(d: string)
    ensures Route(FourWay, d) == GeneratePlot <==> d == "graph"
    ensures Route(FourWay, d) == GenerateInsight <==> d == "insight"
    ensures Route(FourWay, d) == CheckDataQuality <==> d == "quality_check"
    ensures Route(FourWay, d) != UpdateData
    ensures Route(FourWay, d) == AskQuestion <==> d !in {"graph", "insight", "quality_check"}
  {
    var c := FourWay;
    assert c == [("graph", GeneratePlot), ("insight", GenerateInsight), ("quality_check", CheckDataQuality)];
    assert Tokens(c) == ["graph", "insight", "quality_check"];
    if d in Tokens(c) {
      var k :| 0 <= k < |c| && Tokens(c)[k] == d;
      RouteFirstMatch(c, d, k);
    } else {
      RouteFallback(c, d);
    }
  }

  /** The three-way chain: "quality_check" and "update_data" are not
      recognised. */
  lemma ThreeWayRouting(d: string)
    ensures Route(ThreeWay, d) == GeneratePlot <==> d == "graph"
    ensures Route(ThreeWay, d) == GenerateInsight <==> d == "insight"
    ensures Route(ThreeWay, d) == AskQuestion <==> d !in {"graph", "insight"}
  {
    var c := ThreeWay;
    assert Tokens(c) == ["graph", "insight"];
    if d in Tokens(c) {
      var k :| 0 <= k < |c| && Tokens(c)[k] == d;
      RouteFirstMatch(c, d, k);
    } else {
      RouteFallback(c, d);
    }
  }

  /** The two-way chain: everything but "graph" is a question. */
  lemma TwoWayRouting(d: string)
    ensures Route(TwoWay, d) == GeneratePlot <==> d == "graph"
    ensures Route(TwoWay, d) == AskQuestion <==> d != "graph"
  {
    if d != "graph" {
      RouteFallback(TwoWay, d);
    }
  }

  /** Tokens an older chain does not know fall back to `ask_question`. */
  lemma UnknownTokensFallBack()
    ensures Route(FourWay, "update_data") == AskQuestion
    ensures Route(ThreeWay, "quality_check") == AskQuestion
    ensures Route(ThreeWay, "update_data") == AskQuestion
    ensures Route(TwoWay, "insight") == AskQuestion
    ensures Route(FiveWay, "") == AskQuestion
    ensures Route(FiveWay, "banana") == AskQuestion
    ensures Route(FiveWay, "text") == AskQuestion
  {
    FourWayRouting("update_data");
    ThreeWayRouting("quality_check");
    ThreeWayRouting("update_data");
    TwoWayRouting("insight");
    FiveWayRouting("");
    FiveWayRouting("banana");
    FiveWayRouting("text");
  }

  /** Each newer chain extends the older one: a decision the older chain
      routes to a handler other than `ask_question` goes to the same
      handler in the newer chain. */
  lemma {:induction false} ExtendedChainAgrees(older: Chain, extra: Chain, d: string)
    requires Route(older, d) != AskQuestion
    ensures Route(older + extra, d) == Route(older, d)
  {
    if |older| > 0 && d != older[0].0 {
      assert (older + extra)[1..] == older[1..] + extra;
      ExtendedChainAgrees(older[1..], extra, d);
    }
  }

  // ---------------------------------------------------------------------
  // classify_query
  // ---------------------------------------------------------------------

  /** `classify_query(q)`: the collaborator's reply to `q`, normalised. */
  function Classify(reply: string -> string, q: string): (d: string)
    ensures IsNormal(d)
    ensures d == "" <==> AllSpace(reply(q))
  {
    Normalize(reply(q))
  }

  /** The decision is the core of the collaborator's reply, lower-cased. */
  lemma ClassifyCore(reply: string -> string, q: string, i: nat, j: nat)
    requires i < j <= |reply(q)| && !IsSpace(reply(q)[i]) && !IsSpace(reply(q)[j - 1])
    requires forall k :: 0 <= k < i ==> IsSpace(reply(q)[k])
    requires forall k :: j <= k < |reply(q)| ==> IsSpace(reply(q)[k])
    ensures Classify(reply, q) == Lower(reply(q)[i..j])
  {
    NormalizeCore(reply(q), i, j);
  }

  /** `classify_query` maps no token to another: whatever normalised string
      the collaborator replies is the decision, tokens or not. */
  lemma ClassifyPassesThrough(reply: string -> string, q: string)
    requires IsNormal(reply(q))
    ensures Classify(reply, q) == reply(q)
  {
    NormalIffFixed(reply(q));
  }

  /** A shouted "GRAPH" with a line feed reaches the plot handler in every
      version. */
  lemma ShoutedGraphPlots(reply: string -> string, q: string)
    requires reply(q) == "GRAPH\n"
    ensures Route(TwoWay, Classify(reply, q)) == GeneratePlot
    ensures Route(ThreeWay, Classify(reply, q)) == GeneratePlot
    ensures Route(FourWay, Classify(reply, q)) == GeneratePlot
    ensures Route(FiveWay, Classify(reply, q)) == GeneratePlot
  {
    ShoutedReplyNormalizes();
    FiveWayRouting("graph");
    FourWayRouting("graph");
    ThreeWayRouting("graph");
  }
}
