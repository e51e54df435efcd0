/** The question-and-answer loop around the profiler: the collaborator
    (`get_response`), the handlers of `req_functions` that pass its reply
    through, the Streamlit chat state (upload, Send button, history) and
    the command-line loop with its `exit` rule. */
module Session {
  import opened Wrappers
  import opened Text
  import opened Intent
  import opened Tables

  // ---------------------------------------------------------------------
  // The collaborator and the handlers
  // ---------------------------------------------------------------------

  /** What the collaborator is asked: to classify a query, or to answer it
      with one handler's prompt about the table. The prompt wording is not
      part of this model; the request records what the prompt is built
      from. */
  datatype Request = ClassifyReq(query: string) | HandleReq(handler: Handler, table: Table, query: string)

  /** The collaborator, an uninterpreted function of the request. */
  type Llm = Request -> string

  /** The reply the classifier prompt gets for a query. */
  function ClassifierReply(llm: Llm): string -> string {
    q => llm(ClassifyReq(q))
  }

  /** `classify_query(q)` with the collaborator's reply normalised. */
  function Decision(llm: Llm, q: string): (d: string)
    ensures IsNormal(d)
    ensures d == "" <==> AllSpace(llm(ClassifyReq(q)))
  {
    Classify(ClassifierReply(llm), q)
  }

  /** The decision is the core of the collaborator's reply to the
      classifier request, lower-cased. */
  lemma DecisionCore(llm: Llm, q: string, i: nat, j: nat)
    requires i < j <= |llm(ClassifyReq(q))|
    requires !IsSpace(llm(ClassifyReq(q))[i]) && !IsSpace(llm(ClassifyReq(q))[j - 1])
    requires forall k :: 0 <= k < i ==> IsSpace(llm(ClassifyReq(q))[k])
    requires forall k :: j <= k < |llm(ClassifyReq(q))| ==> IsSpace(llm(ClassifyReq(q))[k])
    ensures Decision(llm, q) == Lower(llm(ClassifyReq(q))[i..j])
  {
    NormalizeCore(llm(ClassifyReq(q)), i, j);
  }

  /** A handler of `req_functions`: it builds its prompt from the table and
      the query and returns the collaborator's reply unchanged. Being a
      function of the table, no handler can alter it. */
  function Answer(llm: Llm, h: Handler, t: Table, q: string): string {
    llm(HandleReq(h, t, q))
  }

  /** Classify, route through `chain`, and answer with the chosen handler. */
  function Respond(chain: Chain, llm: Llm, t: Table, q: string): (r: string)
    ensures exists h :: r == llm(HandleReq(h, t, q)) && (h == AskQuestion || (Decision(llm, q), h) in chain)
  {
    var h := Route(chain, Decision(llm, q));
    RouteSound(chain, Decision(llm, q));
    Answer(llm, h, t, q)
  }

  /** With the five-way chain, a query classified as "graph" gets the
      collaborator's reply to the plot prompt and one classified as
      "update_data" gets its reply to the update prompt, as they are: no
      code block is taken out of either. */
  lemma PlotAndUpdatePassThrough(llm: Llm, t: Table, q: string)
    ensures Decision(llm, q) == "graph" ==> Respond(FiveWay, llm, t, q) == llm(HandleReq(GeneratePlot, t, q))
    ensures Decision(llm, q) == "update_data" ==> Respond(FiveWay, llm, t, q) == llm(HandleReq(UpdateData, t, q))
    ensures Decision(llm, q) !in {"graph", "insight", "quality_check", "update_data"} ==>
              Respond(FiveWay, llm, t, q) == llm(HandleReq(AskQuestion, t, q))
  {
    FiveWayRouting(Decision(llm, q));
  }

  /** The fixed reply of the first command-line version's `generate_plot`. */
  const Apology: string := "Apolozies, but we don't support graph generation yet...."

  /** The two-way version: "graph" gets the fixed apology, everything else
      the collaborator's answer to the question prompt. */
  function RespondTwoWay(llm: Llm, t: Table, q: string): (r: string)
    ensures Decision(llm, q) == "graph" ==> r == Apology
    ensures Decision(llm, q) != "graph" ==> r == llm(HandleReq(AskQuestion, t, q))
  {
    TwoWayRouting(Decision(llm, q));
    if Route(TwoWay, Decision(llm, q)) == GeneratePlot then Apology else Answer(llm, AskQuestion, t, q)
  }

  /** The two-way version asks the collaborator only to classify when the
      decision is "graph", and the reply is the same apology whatever the
      table, the query and the collaborator. */
  lemma TwoWayPlotIsConstant(llm1: Llm, t1: Table, q1: string, llm2: Llm, t2: Table, q2: string)
    requires Decision(llm1, q1) == "graph" && Decision(llm2, q2) == "graph"
    ensures RespondTwoWay(llm1, t1, q1) == RespondTwoWay(llm2, t2, q2) == Apology
  {
    TwoWayRouting("graph");
  }

  /** Every other decision gets the question prompt's reply. */
  lemma TwoWayOtherwiseAsks(llm: Llm, t: Table, q: string)
    requires Decision(llm, q) != "graph"
    ensures RespondTwoWay(llm, t, q) == llm(HandleReq(AskQuestion, t, q))
  {
    TwoWayRouting(Decision(llm, q));
  }

  // ---------------------------------------------------------------------
  // The Streamlit chat state
  // ---------------------------------------------------------------------

  /** `st.session_state.df` and `st.session_state.chat_history`. */
  datatype State = State(table: Option<Table>, history: seq<(string, string)>)

  /** An upload: a file that reads (`Some`) replaces the table and clears
      the history; one that fails to read (`None`) changes nothing. */
  function Load(s: State, upload: Option<Table>): (r: State)
    ensures upload.Some? ==> r.table == upload && r.history == []
    ensures upload.None? ==> r == s
  {
    if upload.Some? then State(upload, []) else s
  }

  /** Pressing Send with `input` in the text box: a blank input, or one
      sent before any table is loaded, changes nothing; otherwise the input
      is classified, routed and answered, and the pair is appended to the
      history. */
  function Send(s: State, input: string, chain: Chain, llm: Llm): (r: State)
    ensures r.table == s.table
    ensures s.table.None? || AllSpace(input) ==> r == s
    ensures s.table.Some? && !AllSpace(input) ==>
              && |r.history| == |s.history| + 1
              && r.history[..|s.history|] == s.history
              && r.history[|s.history|] == (input, Respond(chain, llm, s.table.value, input))
  {
    StripEmptyIff(input);
    if s.table.None? || Strip(input) == "" then s
    else
      var entry := (input, Respond(chain, llm, s.table.value, input));
      assert (s.history + [entry])[..|s.history|] == s.history;
      State(s.table, s.history + [entry])
  }

  /** A whitespace-only input leaves the state as it was. */
  lemma BlankInputIgnored(s: State, chain: Chain, llm: Llm)
    ensures Send(s, "", chain, llm) == s
    ensures Send(s, "   ", chain, llm) == s
    ensures Send(s, " \t\n", chain, llm) == s
  {
    assert AllSpace("   ");
    assert AllSpace(" \t\n");
  }

  /** Pressing Send for each input in turn. */
  function SendAll(s: State, inputs: seq<string>, chain: Chain, llm: Llm): (r: State)
    ensures r.table == s.table
    ensures s.table.None? ==> r == s
    ensures |r.history| >= |s.history| && r.history[..|s.history|] == s.history
    decreases |inputs|
  {
    if |inputs| == 0 then s else SendAll(Send(s, inputs[0], chain, llm), inputs[1..], chain, llm)
  }

  /** How many of the inputs are not blank. */
  function NonBlank(inputs: seq<string>): nat {
    if |inputs| == 0 then 0 else (if AllSpace(inputs[0]) then 0 else 1) + NonBlank(inputs[1..])
  }

  /** With a table loaded, a run of sends keeps the table and the earlier
      history and adds exactly one entry per non-blank input. */
  lemma {:induction false} SendAllHistory(s: State, inputs: seq<string>, chain: Chain, llm: Llm)
    requires s.table.Some?
    ensures SendAll(s, inputs, chain, llm).table == s.table
    ensures |SendAll(s, inputs, chain, llm).history| == |s.history| + NonBlank(inputs)
    ensures SendAll(s, inputs, chain, llm).history[..|s.history|] == s.history
    decreases |inputs|
  {
    if |inputs| > 0 {
      var s1 := Send(s, inputs[0], chain, llm);
      SendAllHistory(s1, inputs[1..], chain, llm);
      var h := SendAll(s, inputs, chain, llm).history;
      assert h[..|s1.history|] == s1.history;
      assert h[..|s.history|] == s1.history[..|s.history|];
    }
  }

  /** Before any table is loaded, nothing can be sent. */
  lemma {:induction false} NoTableNoHistory(s: State, inputs: seq<string>, chain: Chain, llm: Llm)
    requires s.table.None?
    ensures SendAll(s, inputs, chain, llm) == s
    decreases |inputs|
  {
    if |inputs| > 0 {
      NoTableNoHistory(Send(s, inputs[0], chain, llm), inputs[1..], chain, llm);
    }
  }

  /** After a new upload, the history holds exactly one entry per
      non-blank input sent since, whatever it held before. */
  lemma HistoryAfterUpload(s: State, t: Table, inputs: seq<string>, chain: Chain, llm: Llm)
    ensures |SendAll(Load(s, Some(t)), inputs, chain, llm).history| == NonBlank(inputs)
  {
    SendAllHistory(Load(s, Some(t)), inputs, chain, llm);
  }

  // ---------------------------------------------------------------------
  // The five-way Send of streamlit_v6.py as written
  // ---------------------------------------------------------------------

  /** `answer, code = reply`: Python unpacks a string character by
      character, so this raises unless the reply has exactly two characters,
      and then keeps the first one. */
  function UnpackFirst(reply: string): (r: Result<string>)
    ensures r.Ok? <==> |reply| == 2
    ensures r.Ok? ==> r.value == [reply[0]]
    ensures r.Err? ==> r.error == Unpack(|reply|)
  {
    if |reply| == 2 then Ok(reply[..1]) else Err(Unpack(|reply|))
  }

  /** The Send of streamlit_v6.py as written: the plot and update branches
      unpack the handler's single string into two names. */
  function SendV6AsWritten(s: State, input: string, llm: Llm): (r: Result<State>)
    ensures r.Ok? ==> r.value.table == s.table
    ensures s.table.None? || AllSpace(input) ==> r == Ok(s)
    ensures s.table.Some? && !AllSpace(input) ==>
              var d := Decision(llm, input);
              var h := if d == "graph" then GeneratePlot else if d == "update_data" then UpdateData else Route(FiveWay, d);
              var a := llm(HandleReq(h, s.table.value, input));
              && (r.Err? <==> (d == "graph" || d == "update_data") && |a| != 2)
              && ((d == "graph" || d == "update_data") && |a| == 2 ==>
                    r == Ok(State(s.table, s.history + [(input, [a[0]])])))
              && (d != "graph" && d != "update_data" ==> r == Ok(State(s.table, s.history + [(input, a)])))
  {
    StripEmptyIff(input);
    FiveWayRouting(Decision(llm, input));
    if s.table.None? || Strip(input) == "" then Ok(s)
    else
      var t := s.table.value;
      var h := Route(FiveWay, Decision(llm, input));
      var answer :- if h == GeneratePlot || h == UpdateData then UnpackFirst(Answer(llm, h, t, input))
                    else Ok(Answer(llm, h, t, input));
      Ok(State(s.table, s.history + [(input, answer)]))
  }

  /** As written, a plot reply of any length but two raises instead of
      being recorded: a three-character reply such as "plt" is lost. */
  lemma V6PlotReplyRaises(s: State, input: string, llm: Llm)
    requires s.table.Some? && !AllSpace(input) && Decision(llm, input) == "graph"
    requires llm(HandleReq(GeneratePlot, s.table.value, input)) == "plt"
    ensures SendV6AsWritten(s, input, llm) == Err(Unpack(3))
  {
    StripEmptyIff(input);
    FiveWayRouting("graph");
  }

  /** As written, a two-character update reply is recorded as its first
      character only. */
  lemma V6UpdateReplyTruncated(s: State, input: string, llm: Llm)
    requires s.table.Some? && !AllSpace(input) && Decision(llm, input) == "update_data"
    requires llm(HandleReq(UpdateData, s.table.value, input)) == "ok"
    ensures SendV6AsWritten(s, input, llm).Ok?
    ensures SendV6AsWritten(s, input, llm).value.history[|s.history|] == (input, "o")
    ensures Send(s, input, FiveWay, llm).history[|s.history|] == (input, "ok")
  {
    StripEmptyIff(input);
    FiveWayRouting("update_data");
    assert UnpackFirst("ok") == Ok("o") by {
      assert "ok"[..1] == "o";
    }
  }

  /** On the insight, quality-check and question branches the code as
      written and the corrected Send agree. */
  lemma V6AgreesOffPlotAndUpdate(s: State, input: string, llm: Llm)
    requires Decision(llm, input) != "graph" && Decision(llm, input) != "update_data"
    ensures SendV6AsWritten(s, input, llm) == Ok(Send(s, input, FiveWay, llm))
  {
    FiveWayRouting(Decision(llm, input));
  }

  // ---------------------------------------------------------------------
  // The command-line loop
  // ---------------------------------------------------------------------

  /** `question.lower() == 'exit'`: the case of the letters does not
      matter, but nothing is trimmed. */
  predicate IsExit(q: string) { Lower(q) == "exit" }

  /** Exactly the four-character spellings of "exit" in any mix of cases
      end the loop. */
  lemma IsExitIff(q: string)
    ensures IsExit(q) <==>
      && |q| == 4
      && (q[0] == 'e' || q[0] == 'E') && (q[1] == 'x' || q[1] == 'X')
      && (q[2] == 'i' || q[2] == 'I') && (q[3] == 't' || q[3] == 'T')
  {
    var l := Lower(q);
    if IsExit(q) {
      assert l[0] == 'e' && l[1] == 'x' && l[2] == 'i' && l[3] == 't';
    }
    if |q| == 4 {
      assert forall i :: 0 <= i < 4 ==> l[i] == LowerChar(q[i]);
      assert (q[0] == 'e' || q[0] == 'E') ==> l[0] == 'e';
      assert (q[1] == 'x' || q[1] == 'X') ==> l[1] == 'x';
      assert (q[2] == 'i' || q[2] == 'I') ==> l[2] == 'i';
      assert (q[3] == 't' || q[3] == 'T') ==> l[3] == 't';
    }
  }

  lemma ExitExamples()
    ensures IsExit("exit") && IsExit("EXIT") && IsExit("Exit")
    ensures !IsExit(" exit") && !IsExit("exit\n") && !IsExit("quit") && !IsExit("")
  {
    IsExitIff("exit");
    IsExitIff("EXIT");
    IsExitIff("Exit");
    IsExitIff(" exit");
    IsExitIff("exit\n");
    IsExitIff("quit");
    IsExitIff("");
  }

  /** The command-line loop over the questions typed: each is answered by
      `respond` and printed, until the first `exit`. A blank question is
      not skipped there. */
  function Transcript(respond: string -> string, questions: seq<string>): (r: seq<(string, string)>)
    ensures |r| <= |questions|
    ensures forall i :: 0 <= i < |r| ==> !IsExit(questions[i]) && r[i] == (questions[i], respond(questions[i]))
    ensures |r| < |questions| ==> IsExit(questions[|r|])
  {
    if |questions| == 0 || IsExit(questions[0]) then []
    else [(questions[0], respond(questions[0]))] + Transcript(respond, questions[1..])
  }

  /** The loop answers exactly the questions before the first `exit`, in
      order. */
  lemma {:induction false} TranscriptStopsAtExit(respond: string -> string, questions: seq<string>, k: nat)
    requires k < |questions| && IsExit(questions[k])
    requires forall j :: 0 <= j < k ==> !IsExit(questions[j])
    ensures |Transcript(respond, questions)| == k
    ensures forall i :: 0 <= i < k ==> Transcript(respond, questions)[i] == (questions[i], respond(questions[i]))
  {
    if k > 0 {
      TranscriptStopsAtExit(respond, questions[1..], k - 1);
    }
  }

  /** Without an `exit`, every question is answered. */
  lemma {:induction false} TranscriptWithoutExit(respond: string -> string, questions: seq<string>)
    requires forall j :: 0 <= j < |questions| ==> !IsExit(questions[j])
    ensures |Transcript(respond, questions)| == |questions|
    ensures forall i :: 0 <= i < |questions| ==> Transcript(respond, questions)[i] == (questions[i], respond(questions[i]))
  {
    if |questions| > 0 {
      TranscriptWithoutExit(respond, questions[1..]);
    }
  }

  /** Unlike the Send button, the loop answers a blank question and is not
      stopped by a padded " exit". */
  lemma CliAnswersBlankAndPaddedExit(respond: string -> string)
    ensures Transcript(respond, ["", " exit", "EXIT", "x"]) == [("", respond("")), (" exit", respond(" exit"))]
  {
    ExitExamples();
    var qs := ["", " exit", "EXIT", "x"];
    assert qs[1..] == [" exit", "EXIT", "x"];
    assert qs[1..][1..] == ["EXIT", "x"];
  }
}
