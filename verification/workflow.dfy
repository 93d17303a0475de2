/**
 * The deterministic part of `run_workflow` (playwright_langgraph_agent.py):
 * everything it does with the request, the configuration and the three
 * model replies (plan, generated test, healed test), with the language
 * model, the MCP client and the file system taken out. The replies are
 * parameters; the files written are returned as a list of writes.
 */
module Workflow {
  import opened Wrappers
  import opened Text
  import opened Slug
  import opened Paths
  import opened Fence
  import opened McpConfig

  /** The healer's answer when the test needs no change (compared after upper-casing). */
  const NoChanges: string := "NO_CHANGES"

  /** The plan written when the planner's reply holds no text. */
  function DefaultPlan(spec: string): string
  {
    "# Plan\n\nRequest:\n" + spec + "\n"
  }

  /** The plan text: the planner's extracted block, or the default plan when that is empty. */
  function PlanText(planReply: string, spec: string): (plan: string)
    ensures plan != ""
    ensures plan == ExtractFencedBlock(planReply) || plan == DefaultPlan(spec)
    ensures plan == DefaultPlan(spec) <== ExtractFencedBlock(planReply) == ""
    ensures ExtractFencedBlock(planReply) != "" ==> plan == ExtractFencedBlock(planReply)
  {
    var extracted := ExtractFencedBlock(planReply);
    if extracted == "" then DefaultPlan(spec) else extracted
  }

  datatype WorkflowError =
    | Config(error: ConfigError)    // raised while selecting or normalising the MCP server entry
    | NoTestCode                    // ValueError: No test code returned by generator.

  /** The generated test code: the generator's extracted block, an error when it is empty. */
  function GeneratedCode(generationReply: string): (r: Result<string, WorkflowError>)
    ensures r.Ok? <==> ExtractFencedBlock(generationReply) != ""
    ensures r.Err? ==> r.error == NoTestCode
    ensures r.Ok? ==> r.value == ExtractFencedBlock(generationReply)
    ensures r.Ok? ==> r.value != "" && NoOuterSpace(r.value)
  {
    var code := ExtractFencedBlock(generationReply);
    if code == "" then Err(NoTestCode) else Ok(code)
  }

  /** What healing did: the new code, whether it changed, and whether the test file was written again. */
  datatype HealOutcome = HealOutcome(code: string, healed: bool, rewritten: bool)

  /**
   * The heal decision: a stripped reply reading NO_CHANGES in any letter
   * case, or one whose extracted block is empty, keeps the code; otherwise
   * the extracted block replaces it and the file is written again.
   */
  function Heal(healReply: string, code: string): (h: HealOutcome)
    ensures h.healed <==> h.code != code
    ensures h.rewritten <==>
      Upper(Strip(healReply)) != NoChanges && ExtractFencedBlock(Strip(healReply)) != ""
    ensures h.rewritten ==> h.code == ExtractFencedBlock(Strip(healReply))
    ensures !h.rewritten ==> h.code == code
  {
    var healText := Strip(healReply);
    if Upper(healText) != NoChanges then
      var healedCode := ExtractFencedBlock(healText);
      if healedCode != "" then HealOutcome(healedCode, healedCode != code, true)
      else HealOutcome(code, false, false)
    else HealOutcome(code, false, false)
  }

  /**
   * Healing depends on the reply's extracted block as such: stripping the
   * reply first does not change which block is taken.
   */
  lemma HealTakesReplyBlock(healReply: string, code: string)
    ensures Heal(healReply, code).rewritten ==> Heal(healReply, code).code == ExtractFencedBlock(healReply)
  {
    ExtractIgnoresOuterSpace(healReply);
  }

  /** Applying the same healer reply a second time changes nothing more. */
  lemma HealStable(healReply: string, code: string)
    ensures var h := Heal(healReply, code);
      Heal(healReply, h.code) == HealOutcome(h.code, false, h.rewritten)
  {
  }

  /**
   * The NO_CHANGES test is case-insensitive: the stripped reply upper-cases to
   * NO_CHANGES exactly when it lower-cases to no_changes.
   */
  lemma NoChangesAnyCase(t: string)
    ensures Upper(t) == NoChanges <==> Lower(t) == "no_changes"
  {
    UpperEqualsIffLower(t, NoChanges);
    assert Lower(NoChanges) == "no_changes";
  }

  const FencedNoChanges: string := "```\nNO_CHANGES\n```"

  /**
   * NO_CHANGES is recognised only as the whole reply: wrapped in a code
   * fence it is taken as the new test code.
   */
  lemma HealFencedNoChanges(code: string)
    requires code != NoChanges
    ensures Heal(FencedNoChanges, code) == HealOutcome(NoChanges, true, true)
  {
    FencedNoChangesParts();
  }

  lemma FencedNoChangesParts()
    ensures Strip(FencedNoChanges) == FencedNoChanges
    ensures Upper(FencedNoChanges) != NoChanges
    ensures ExtractFencedBlock(FencedNoChanges) == NoChanges
  {
    var s := FencedNoChanges;
    assert IsStripOf(s, s, 0) by {
      assert s[0..|s|] == s && s[..0] == [] && s[|s|..] == [];
    }
    StripUnique(s, Strip(s), LeadingSpace(s), s, 0);
    assert |Upper(s)| == 18;
    FencedNoChangesMatch();
    ExtractLeftmostFence(s, Match(0, 4, 15));
    NoChangesBodyStrip();
  }

  lemma NoChangesBodyStrip()
    ensures Strip("NO_CHANGES\n") == NoChanges
  {
    var body := "NO_CHANGES\n";
    assert IsStripOf(body, NoChanges, 0) by {
      assert body[0..10] == NoChanges && body[..0] == [] && body[10..] == "\n";
    }
    StripUnique(body, Strip(body), LeadingSpace(body), NoChanges, 0);
  }

  lemma FencedNoChangesMatch()
    ensures IsMatch(FencedNoChanges, Match(0, 4, 15))
    ensures FencedNoChanges[4..15] == "NO_CHANGES\n"
  {
    var s := FencedNoChanges;
    assert s[4..15] == "NO_CHANGES\n";
    assert forall k :: 3 <= k < 15 ==> s[k] != '`';
  }

  /** The connection settings for the configured server (`normalize_mcp_config(load_mcp_server_config(...))`). */
  function Connection(config: Option<Json>, serverName: string): (r: Result<map<string, Json>, ConfigError>)
    ensures r.Ok? <==> !Malformed(config) && Supported(SelectServer(config, serverName).value)
    ensures Malformed(config) ==> r == Err(NotAMapping(if config.value.JObj? then config.value.fields["servers"] else config.value))
    ensures var e := NamedEntry(config, serverName);
      !Malformed(config) && e.Some? && Truthy(e.value) ==> r == Normalize(e.value)
    ensures var e := NamedEntry(config, serverName);
      !Malformed(config) && (e.None? || !Truthy(e.value)) ==> r == Ok(DefaultConnection)
    ensures config.None? ==> r == Ok(DefaultConnection)
  {
    DefaultServerConnection();
    match SelectServer(config, serverName)
    case Err(e) => Err(e)
    case Ok(server) => Normalize(server)
  }

  /** One `write_text` call. */
  datatype Write = Write(path: FilePath, content: string)

  /** The three model replies, in the order they are requested. */
  datatype Replies = Replies(plan: string, generation: string, heal: string)

  /** The tuple `run_workflow` returns. */
  datatype Outcome = Outcome(planPath: FilePath, planText: string, testPath: FilePath, testCode: string, healed: bool)

  /** The files written, in order, and what the call returned or raised. */
  datatype Run = Run(writes: seq<Write>, result: Result<Outcome, WorkflowError>)

  /** Where a run puts its plan and its test. */
  datatype Locations = Locations(planPath: FilePath, testPath: FilePath)

  /**
   * Lines 194-197 of `run_workflow`: the stripped request, its request id
   * and the two file locations (the given output path, if any, wins).
   */
  function Locate(spec: string, outputPath: Option<FilePath>, testLanguage: string, timestamp: string): (l: Locations)
    ensures var requestId := RequestId(Strip(spec), timestamp);
      && l.planPath == FilePath("specs", requestId + "-plan.md")
      && (outputPath.Some? ==> l.testPath == outputPath.value)
      && (outputPath.None? ==> l.testPath == FilePath("tests", requestId + "." + Extension(testLanguage)))
  {
    var spec := Strip(spec);
    var requestId := RequestId(spec, timestamp);
    assert requestId != "";
    Locations(
      PlanOutputPath(requestId),
      if outputPath.Some? then outputPath.value else DefaultOutputPath(spec, testLanguage, Some(requestId)))
  }

  /** Planning, generation and healing once the MCP configuration has been accepted. */
  function Produce(spec: string, at: Locations, replies: Replies): (run: Run)
    ensures run.result.Err? <==> ExtractFencedBlock(replies.generation) == ""
    ensures run.result.Err? ==>
      && run.result.error == NoTestCode
      && run.writes == [Write(at.planPath, PlanText(replies.plan, spec) + "\n")]
    ensures run.result.Ok? ==>
      var o := run.result.value;
      && o.planPath == at.planPath && o.testPath == at.testPath
      && o.planText != "" && o.testCode != "" && NoOuterSpace(o.testCode)
      && 2 <= |run.writes| <= 3
      && run.writes[0] == Write(o.planPath, o.planText + "\n")
      && run.writes[|run.writes| - 1] == Write(o.testPath, o.testCode + "\n")
      && (o.healed <==> o.testCode != ExtractFencedBlock(replies.generation))
    ensures run.result.Ok? ==>
      var o := run.result.value;
      var code := ExtractFencedBlock(replies.generation);
      var h := Heal(replies.heal, code);
      && o.planText == PlanText(replies.plan, spec)
      && o.testCode == h.code && o.healed == h.healed
      && run.writes[1] == Write(at.testPath, code + "\n")
      && (|run.writes| == 3 <==> h.rewritten)
  {
    var planText := PlanText(replies.plan, spec);
    var planWrite := Write(at.planPath, planText + "\n");
    match GeneratedCode(replies.generation)
    case Err(e) => Run([planWrite], Err(e))
    case Ok(code) =>
      var generated := [planWrite, Write(at.testPath, code + "\n")];
      var h := Heal(replies.heal, code);
      var writes := if h.rewritten then generated + [Write(at.testPath, h.code + "\n")] else generated;
      Run(writes, Ok(Outcome(at.planPath, planText, at.testPath, h.code, h.healed)))
  }

  /**
   * `run_workflow` with its model replies and clock reading as parameters.
   * The configuration is read twice in the source (once per MCP session);
   * both reads see the same parsed file here.
   */
  function RunWorkflow(
    spec: string, outputPath: Option<FilePath>, testLanguage: string,
    config: Option<Json>, serverName: string, timestamp: string, replies: Replies): (run: Run)
    ensures run.writes == [] <==> run.result.Err? && run.result.error.Config?
    ensures |run.writes| <= 3
  {
    match Connection(config, serverName)
    case Err(e) => Run([], Err(Config(e)))
    case Ok(_) => Produce(Strip(spec), Locate(spec, outputPath, testLanguage, timestamp), replies)
  }

  /** A configuration that cannot be selected or normalised fails the run before any file is written. */
  lemma WorkflowConfigFailure(
    spec: string, outputPath: Option<FilePath>, testLanguage: string,
    config: Option<Json>, serverName: string, timestamp: string, replies: Replies)
    requires Connection(config, serverName).Err?
    ensures var run := RunWorkflow(spec, outputPath, testLanguage, config, serverName, timestamp, replies);
      && run.writes == []
      && run.result == Err(Config(Connection(config, serverName).error))
  {
  }

  /**
   * With a usable configuration, the run fails exactly when the generator's
   * extracted block is empty, and then only the plan file has been written.
   */
  lemma WorkflowGenerationFailure(
    spec: string, outputPath: Option<FilePath>, testLanguage: string,
    config: Option<Json>, serverName: string, timestamp: string, replies: Replies)
    requires Connection(config, serverName).Ok?
    ensures var run := RunWorkflow(spec, outputPath, testLanguage, config, serverName, timestamp, replies);
      && (run.result.Err? <==> ExtractFencedBlock(replies.generation) == "")
      && (run.result.Err? ==> run.result.error == NoTestCode)
      && (run.result.Err? ==>
            var spec' := Strip(spec);
            run.writes == [Write(PlanOutputPath(RequestId(spec', timestamp)), PlanText(replies.plan, spec') + "\n")])
  {
  }

  /**
   * A successful run writes the plan first and the test file last, with the
   * returned plan and code each followed by a newline; the code is never
   * empty; `healed` says whether the final code differs from the generated
   * one; the plan goes to specs/<request id>-plan.md and, without an output
   * path, the test to tests/<request id>.<extension>: the slug fallback of
   * `default_output_path` is never taken, as the request id is never empty.
   */
  lemma WorkflowSuccess(
    spec: string, outputPath: Option<FilePath>, testLanguage: string,
    config: Option<Json>, serverName: string, timestamp: string, replies: Replies)
    requires RunWorkflow(spec, outputPath, testLanguage, config, serverName, timestamp, replies).result.Ok?
    ensures var run := RunWorkflow(spec, outputPath, testLanguage, config, serverName, timestamp, replies);
      var o := run.result.value;
      var requestId := RequestId(Strip(spec), timestamp);
      && o.planText != "" && o.testCode != "" && NoOuterSpace(o.testCode)
      && 2 <= |run.writes| <= 3
      && run.writes[0] == Write(o.planPath, o.planText + "\n")
      && run.writes[|run.writes| - 1] == Write(o.testPath, o.testCode + "\n")
      && (o.healed <==> o.testCode != ExtractFencedBlock(replies.generation))
      && o.planPath == FilePath("specs", requestId + "-plan.md")
      && (outputPath.Some? ==> o.testPath == outputPath.value)
      && (outputPath.None? ==> o.testPath == FilePath("tests", requestId + "." + Extension(testLanguage)))
    ensures var run := RunWorkflow(spec, outputPath, testLanguage, config, serverName, timestamp, replies);
      var o := run.result.value;
      var code := ExtractFencedBlock(replies.generation);
      var h := Heal(replies.heal, code);
      && o.planText == PlanText(replies.plan, Strip(spec))
      && o.testCode == h.code && o.healed == h.healed
      && run.writes[1] == Write(o.testPath, code + "\n")
      && (|run.writes| == 3 <==> h.rewritten)
  {
    var l := Locate(spec, outputPath, testLanguage, timestamp);
    assert Connection(config, serverName).Ok?;
    assert RunWorkflow(spec, outputPath, testLanguage, config, serverName, timestamp, replies)
      == Produce(Strip(spec), l, replies);
  }
}
