/**
 * The research orchestrator: a study runs the data-research phase, saves its data,
 * runs the risk-analysis phase and the report phase, and saves the complete study.
 * Each phase result is checked before the next phase starts, and any exception
 * becomes a logged error. The three agents and the file saver are outside the
 * model: they are oracles, and every call to them is recorded in a trace.
 */
module Orchestrator {
  import opened Wrappers
  import opened JsonValue

  /** What an agent call gives back: its result dictionary, or the text of the exception it raised. */
  datatype Reply = Returned(value: map<string, Json>) | Raised(message: string)

  /** What `save_research_data` gives back: the path written, or the text of the exception. */
  datatype SaveReply = Written(path: string) | WriteFailed(message: string)

  /** The three agents and the saver. */
  datatype Agents = Agents(
    conductResearch: (seq<string>, string) -> Reply,
    analyzeFinancialRisk: (map<string, Json>, seq<string>) -> Reply,
    generateResearchReport: (map<string, Json>, map<string, Json>, seq<string>) -> Reply,
    saveResearchData: (Json, string) -> SaveReply)

  /** One observable step of a study: an agent call, a save, or an error-log append. */
  datatype Event =
    | ResearchCalled(symbols: seq<string>, focus: string)
    | DataSaved(data: Json, filename: string)
    | AnalysisCalled(research: map<string, Json>, symbols: seq<string>)
    | ReportCalled(research: map<string, Json>, analysis: map<string, Json>, symbols: seq<string>)
    | ErrorLogged(message: string)

  /** The dictionary a study returns, and every step it took. */
  datatype StudyRun = StudyRun(result: map<string, Json>, trace: seq<Event>)

  const ResearchFailedPrefix: string := "Research phase failed: "
  const AnalysisFailedPrefix: string := "Analysis phase failed: "
  const ReportFailedPrefix: string := "Report generation failed: "
  const StudyFailedPrefix: string := "Research study failed: "
  const UnknownError: string := "Unknown error"

  /** The five keys of a completed study. */
  const StudyKeys: set<string> :=
    {"study_metadata", "data_research", "data_research_path", "risk_analysis", "research_report"}

  function ErrorMap(message: string): map<string, Json> {
    map["error" := JStr(message)]
  }

  /** The `study_metadata` entry; the study id doubles as the start time. */
  function Metadata(symbols: seq<string>, focus: string, studyName: string, studyId: string): Json {
    JObj(map[
      "study_id" := JStr(studyId),
      "study_name" := JStr(studyName),
      "symbols" := JArr(seq(|symbols|, i requires 0 <= i < |symbols| => JStr(symbols[i]))),
      "research_focus" := JStr(focus),
      "start_time" := JStr(studyId)])
  }

  function ResearchFile(studyId: string): string { "research_data_" + studyId + ".json" }

  function CompleteFile(studyId: string): string { "complete_study_" + studyId + ".json" }

  /**
   * `report_results['metadata']['filepath']` in the closing message: `None` when
   * the lookup succeeds, otherwise `str()` of the `KeyError` or `TypeError` it raises.
   * It succeeds exactly when `metadata` is an object holding `filepath`.
   */
  function FilepathLookup(report: map<string, Json>): (raised: Option<string>)
    ensures raised.None? <==> "metadata" in report && report["metadata"].JObj? && "filepath" in report["metadata"].fields
  {
    if "metadata" !in report then Some("'metadata'")
    else
      match report["metadata"]
      case JObj(fields) => if "filepath" in fields then None else Some("'filepath'")
      case JStr(_) => Some("string indices must be integers, not 'str'")
      case JArr(_) => Some("list indices must be integers or slices, not str")
      case JNull => Some("'NoneType' object is not subscriptable")
      case JBool(_) => Some("'bool' object is not subscriptable")
      case JInt(_) => Some("'int' object is not subscriptable")
      case JFloat(_) => Some("'float' object is not subscriptable")
  }

  /** The `except` clause: log the message once and return it as the only key. */
  function Failed(message: string, trace: seq<Event>): StudyRun {
    StudyRun(ErrorMap(StudyFailedPrefix + message), trace + [ErrorLogged(StudyFailedPrefix + message)])
  }

  /**
   * Phase 3 onwards: the report phase, the second save and the closing message. It
   * adds the report to the results or answers only `error`.
   */
  function ReportPhase(agents: Agents, symbols: seq<string>, studyResults: map<string, Json>,
                       research: map<string, Json>, analysis: map<string, Json>,
                       studyId: string, trace: seq<Event>): (run: StudyRun)
    ensures run.result.Keys == studyResults.Keys + {"research_report"} || run.result.Keys == {"error"}
  {
    var t := trace + [ReportCalled(research, analysis, symbols)];
    match agents.generateResearchReport(research, analysis, symbols)
    case Raised(e) => Failed(e, t)
    case Returned(report) =>
      if !Truthy(Get(report, "success", JBool(false))) then
        StudyRun(ErrorMap(ReportFailedPrefix + Str(Get(report, "error", JStr(UnknownError)))), t)
      else
        var complete := studyResults["research_report" := JObj(report)];
        var t' := t + [DataSaved(JObj(complete), CompleteFile(studyId))];
        match agents.saveResearchData(JObj(complete), CompleteFile(studyId))
        case WriteFailed(e) => Failed(e, t')
        case Written(_) =>
          match FilepathLookup(report)
          case Some(e) => Failed(e, t')
          case None => StudyRun(complete, t')
  }

  /**
   * Phase 2 onwards: the risk analysis of the research result. It adds the analysis
   * and the report to the results or answers only `error`.
   */
  function AnalysisPhase(agents: Agents, symbols: seq<string>, studyResults: map<string, Json>,
                         research: map<string, Json>, studyId: string, trace: seq<Event>): (run: StudyRun)
    ensures run.result.Keys == studyResults.Keys + {"risk_analysis", "research_report"} || run.result.Keys == {"error"}
  {
    var t := trace + [AnalysisCalled(research, symbols)];
    match agents.analyzeFinancialRisk(research, symbols)
    case Raised(e) => Failed(e, t)
    case Returned(analysis) =>
      if "error" in analysis then StudyRun(ErrorMap(AnalysisFailedPrefix + Str(analysis["error"])), t)
      else ReportPhase(agents, symbols, studyResults["risk_analysis" := JObj(analysis)], research, analysis, studyId, t)
  }

  /**
   * `conduct_comprehensive_study` as a whole, from the first agent call to the
   * returned dictionary: the five study keys or only `error`.
   */
  function Study(agents: Agents, symbols: seq<string>, focus: string, studyName: string, studyId: string)
    : (run: StudyRun)
    ensures run.result.Keys == StudyKeys || run.result.Keys == {"error"}
  {
    var studyResults := map["study_metadata" := Metadata(symbols, focus, studyName, studyId)];
    var t := [ResearchCalled(symbols, focus)];
    match agents.conductResearch(symbols, focus)
    case Raised(e) => Failed(e, t)
    case Returned(research) =>
      if "error" in research then StudyRun(ErrorMap(ResearchFailedPrefix + Str(research["error"])), t)
      else
        var withData := studyResults["data_research" := JObj(research)];
        var t' := t + [DataSaved(JObj(research), ResearchFile(studyId))];
        match agents.saveResearchData(JObj(research), ResearchFile(studyId))
        case WriteFailed(e) => Failed(e, t')
        case Written(path) =>
          AnalysisPhase(agents, symbols, withData["data_research_path" := JStr(path)], research, studyId, t')
  }

  /** `FinancialRiskResearchOrchestrator`: holds the agents it was built with. */
  class ResearchOrchestrator {
    const agents: Agents

    constructor(agents: Agents)
      ensures this.agents == agents
    {
      this.agents := agents;
    }

    /**
     * `conduct_comprehensive_study`: fills `study_results` phase by phase and
     * returns early on the first failed phase; `trace` records the calls made.
     */
    method ConductComprehensiveStudy(symbols: seq<string>, focus: string, studyName: string, studyId: string)
      returns (result: map<string, Json>, ghost trace: seq<Event>)
      ensures StudyRun(result, trace) == Study(agents, symbols, focus, studyName, studyId)
      ensures result.Keys == StudyKeys || result.Keys == {"error"}
    {
      var studyResults := map["study_metadata" := Metadata(symbols, focus, studyName, studyId)];

      trace := [ResearchCalled(symbols, focus)];
      var researchReply := agents.conductResearch(symbols, focus);
      if researchReply.Raised? {
        var errorMsg := StudyFailedPrefix + researchReply.message;
        trace := trace + [ErrorLogged(errorMsg)];
        result := ErrorMap(errorMsg);
        return;
      }
      var research := researchReply.value;
      if "error" in research {
        return ErrorMap(ResearchFailedPrefix + Str(research["error"])), trace;
      }
      studyResults := studyResults["data_research" := JObj(research)];

      trace := trace + [DataSaved(JObj(research), ResearchFile(studyId))];
      var dataSave := agents.saveResearchData(JObj(research), ResearchFile(studyId));
      if dataSave.WriteFailed? {
        var errorMsg := StudyFailedPrefix + dataSave.message;
        trace := trace + [ErrorLogged(errorMsg)];
        result := ErrorMap(errorMsg);
        return;
      }
      studyResults := studyResults["data_research_path" := JStr(dataSave.path)];

      trace := trace + [AnalysisCalled(research, symbols)];
      var analysisReply := agents.analyzeFinancialRisk(research, symbols);
      if analysisReply.Raised? {
        var errorMsg := StudyFailedPrefix + analysisReply.message;
        trace := trace + [ErrorLogged(errorMsg)];
        result := ErrorMap(errorMsg);
        return;
      }
      var analysis := analysisReply.value;
      if "error" in analysis {
        return ErrorMap(AnalysisFailedPrefix + Str(analysis["error"])), trace;
      }
      studyResults := studyResults["risk_analysis" := JObj(analysis)];

      trace := trace + [ReportCalled(research, analysis, symbols)];
      var reportReply := agents.generateResearchReport(research, analysis, symbols);
      if reportReply.Raised? {
        var errorMsg := StudyFailedPrefix + reportReply.message;
        trace := trace + [ErrorLogged(errorMsg)];
        result := ErrorMap(errorMsg);
        return;
      }
      var report := reportReply.value;
      if !Truthy(Get(report, "success", JBool(false))) {
        return ErrorMap(ReportFailedPrefix + Str(Get(report, "error", JStr(UnknownError)))), trace;
      }
      studyResults := studyResults["research_report" := JObj(report)];

      trace := trace + [DataSaved(JObj(studyResults), CompleteFile(studyId))];
      var completeSave := agents.saveResearchData(JObj(studyResults), CompleteFile(studyId));
      if completeSave.WriteFailed? {
        var errorMsg := StudyFailedPrefix + completeSave.message;
        trace := trace + [ErrorLogged(errorMsg)];
        result := ErrorMap(errorMsg);
        return;
      }
      var lookup := FilepathLookup(report);
      if lookup.Some? {
        var errorMsg := StudyFailedPrefix + lookup.value;
        trace := trace + [ErrorLogged(errorMsg)];
        result := ErrorMap(errorMsg);
        return;
      }
      result := studyResults;
    }
  }

  // ---------------------------------------------------------------- properties

  /** A research result carrying `error` ends the study at once: no save, no analysis, no report. */
  lemma ResearchErrorStops(agents: Agents, symbols: seq<string>, focus: string, studyName: string, studyId: string,
                           research: map<string, Json>)
    requires agents.conductResearch(symbols, focus) == Returned(research) && "error" in research
    ensures var run := Study(agents, symbols, focus, studyName, studyId);
            && run.result == ErrorMap(ResearchFailedPrefix + Str(research["error"]))
            && run.trace == [ResearchCalled(symbols, focus)]
  {
  }

  /**
   * An analysis result carrying `error` ends the study before the report phase;
   * the research data saved before the analysis stays saved.
   */
  lemma AnalysisErrorStops(agents: Agents, symbols: seq<string>, focus: string, studyName: string, studyId: string,
                           research: map<string, Json>, path: string, analysis: map<string, Json>)
    requires agents.conductResearch(symbols, focus) == Returned(research) && "error" !in research
    requires agents.saveResearchData(JObj(research), ResearchFile(studyId)) == Written(path)
    requires agents.analyzeFinancialRisk(research, symbols) == Returned(analysis) && "error" in analysis
    ensures var run := Study(agents, symbols, focus, studyName, studyId);
            && run.result == ErrorMap(AnalysisFailedPrefix + Str(analysis["error"]))
            && run.trace == [ResearchCalled(symbols, focus), DataSaved(JObj(research), ResearchFile(studyId)),
                             AnalysisCalled(research, symbols)]
  {
  }

  /**
   * The report phase passes only on a truthy `success`; otherwise the study fails
   * with the report's `error`, or "Unknown error" when it has none, after one save.
   */
  lemma ReportGate(agents: Agents, symbols: seq<string>, focus: string, studyName: string, studyId: string,
                   research: map<string, Json>, path: string, analysis: map<string, Json>, report: map<string, Json>)
    requires agents.conductResearch(symbols, focus) == Returned(research) && "error" !in research
    requires agents.saveResearchData(JObj(research), ResearchFile(studyId)) == Written(path)
    requires agents.analyzeFinancialRisk(research, symbols) == Returned(analysis) && "error" !in analysis
    requires agents.generateResearchReport(research, analysis, symbols) == Returned(report)
    requires !Truthy(Get(report, "success", JBool(false)))
    ensures var run := Study(agents, symbols, focus, studyName, studyId);
            && run.result == ErrorMap(ReportFailedPrefix + Str(Get(report, "error", JStr(UnknownError))))
            && ("error" !in report ==> run.result == ErrorMap(ReportFailedPrefix + UnknownError))
            && run.trace == [ResearchCalled(symbols, focus), DataSaved(JObj(research), ResearchFile(studyId)),
                             AnalysisCalled(research, symbols), ReportCalled(research, analysis, symbols)]
  {
  }

  /** The dictionary a completed study returns. */
  function CompleteStudy(symbols: seq<string>, focus: string, studyName: string, studyId: string, path: string,
                         research: map<string, Json>, analysis: map<string, Json>, report: map<string, Json>)
    : map<string, Json>
  {
    map["study_metadata" := Metadata(symbols, focus, studyName, studyId),
        "data_research" := JObj(research),
        "data_research_path" := JStr(path),
        "risk_analysis" := JObj(analysis),
        "research_report" := JObj(report)]
  }

  /**
   * When every phase passes, the study returns the five keys with each phase's
   * result, the analysis and report see exactly the research result, and exactly two
   * saves happen: the research data, then the complete study as returned.
   */
  lemma StudySuccess(agents: Agents, symbols: seq<string>, focus: string, studyName: string, studyId: string,
                     research: map<string, Json>, path: string, analysis: map<string, Json>,
                     report: map<string, Json>, completePath: string)
    requires agents.conductResearch(symbols, focus) == Returned(research) && "error" !in research
    requires agents.saveResearchData(JObj(research), ResearchFile(studyId)) == Written(path)
    requires agents.analyzeFinancialRisk(research, symbols) == Returned(analysis) && "error" !in analysis
    requires agents.generateResearchReport(research, analysis, symbols) == Returned(report)
    requires Truthy(Get(report, "success", JBool(false)))
    requires agents.saveResearchData(JObj(CompleteStudy(symbols, focus, studyName, studyId, path, research, analysis, report)),
                                     CompleteFile(studyId)) == Written(completePath)
    requires FilepathLookup(report) == None
    ensures var run := Study(agents, symbols, focus, studyName, studyId);
            var complete := CompleteStudy(symbols, focus, studyName, studyId, path, research, analysis, report);
            && run.result == complete
            && run.result.Keys == StudyKeys
            && run.result["study_metadata"].fields["start_time"] == JStr(studyId)
            && run.trace == [ResearchCalled(symbols, focus), DataSaved(JObj(research), ResearchFile(studyId)),
                             AnalysisCalled(research, symbols), ReportCalled(research, analysis, symbols),
                             DataSaved(JObj(complete), CompleteFile(studyId))]
  {
    var complete := CompleteStudy(symbols, focus, studyName, studyId, path, research, analysis, report);
    var built := map["study_metadata" := Metadata(symbols, focus, studyName, studyId)]
                   ["data_research" := JObj(research)]["data_research_path" := JStr(path)]
                   ["risk_analysis" := JObj(analysis)]["research_report" := JObj(report)];
    assert built == complete;
  }

  /**
   * A report without a usable `metadata.filepath` fails the study after the complete
   * study was already saved: the closing message raises, the error is logged and
   * returned, and both saves stay on disk.
   */
  lemma ClosingMessageRaises(agents: Agents, symbols: seq<string>, focus: string, studyName: string, studyId: string,
                             research: map<string, Json>, path: string, analysis: map<string, Json>,
                             report: map<string, Json>, completePath: string, e: string)
    requires agents.conductResearch(symbols, focus) == Returned(research) && "error" !in research
    requires agents.saveResearchData(JObj(research), ResearchFile(studyId)) == Written(path)
    requires agents.analyzeFinancialRisk(research, symbols) == Returned(analysis) && "error" !in analysis
    requires agents.generateResearchReport(research, analysis, symbols) == Returned(report)
    requires Truthy(Get(report, "success", JBool(false)))
    requires agents.saveResearchData(JObj(CompleteStudy(symbols, focus, studyName, studyId, path, research, analysis, report)),
                                     CompleteFile(studyId)) == Written(completePath)
    requires FilepathLookup(report) == Some(e)
    ensures var run := Study(agents, symbols, focus, studyName, studyId);
            && run.result == ErrorMap(StudyFailedPrefix + e)
            && |run.trace| == 6
            && run.trace[4] == DataSaved(JObj(CompleteStudy(symbols, focus, studyName, studyId, path, research, analysis, report)),
                                         CompleteFile(studyId))
            && run.trace[5] == ErrorLogged(StudyFailedPrefix + e)
  {
    var complete := CompleteStudy(symbols, focus, studyName, studyId, path, research, analysis, report);
    var built := map["study_metadata" := Metadata(symbols, focus, studyName, studyId)]
                   ["data_research" := JObj(research)]["data_research_path" := JStr(path)]
                   ["risk_analysis" := JObj(analysis)]["research_report" := JObj(report)];
    assert built == complete;
  }

  /** The research agent raising ends the study at once: the exception is logged once and returned. */
  lemma ResearchRaises(agents: Agents, symbols: seq<string>, focus: string, studyName: string, studyId: string,
                       e: string)
    requires agents.conductResearch(symbols, focus) == Raised(e)
    ensures var run := Study(agents, symbols, focus, studyName, studyId);
            && run.result == ErrorMap(StudyFailedPrefix + e)
            && run.trace == [ResearchCalled(symbols, focus), ErrorLogged(StudyFailedPrefix + e)]
  {
  }

  /** The first save raising ends the study before the analysis, logged once and returned. */
  lemma ResearchSaveFails(agents: Agents, symbols: seq<string>, focus: string, studyName: string, studyId: string,
                          research: map<string, Json>, e: string)
    requires agents.conductResearch(symbols, focus) == Returned(research) && "error" !in research
    requires agents.saveResearchData(JObj(research), ResearchFile(studyId)) == WriteFailed(e)
    ensures var run := Study(agents, symbols, focus, studyName, studyId);
            && run.result == ErrorMap(StudyFailedPrefix + e)
            && run.trace == [ResearchCalled(symbols, focus), DataSaved(JObj(research), ResearchFile(studyId)),
                             ErrorLogged(StudyFailedPrefix + e)]
  {
  }

  /** The analysis agent raising ends the study before the report, logged once and returned. */
  lemma AnalysisRaises(agents: Agents, symbols: seq<string>, focus: string, studyName: string, studyId: string,
                       research: map<string, Json>, path: string, e: string)
    requires agents.conductResearch(symbols, focus) == Returned(research) && "error" !in research
    requires agents.saveResearchData(JObj(research), ResearchFile(studyId)) == Written(path)
    requires agents.analyzeFinancialRisk(research, symbols) == Raised(e)
    ensures var run := Study(agents, symbols, focus, studyName, studyId);
            && run.result == ErrorMap(StudyFailedPrefix + e)
            && run.trace == [ResearchCalled(symbols, focus), DataSaved(JObj(research), ResearchFile(studyId)),
                             AnalysisCalled(research, symbols), ErrorLogged(StudyFailedPrefix + e)]
  {
  }

  /** The report agent raising ends the study before the second save, logged once and returned. */
  lemma ReportRaises(agents: Agents, symbols: seq<string>, focus: string, studyName: string, studyId: string,
                     research: map<string, Json>, path: string, analysis: map<string, Json>, e: string)
    requires agents.conductResearch(symbols, focus) == Returned(research) && "error" !in research
    requires agents.saveResearchData(JObj(research), ResearchFile(studyId)) == Written(path)
    requires agents.analyzeFinancialRisk(research, symbols) == Returned(analysis) && "error" !in analysis
    requires agents.generateResearchReport(research, analysis, symbols) == Raised(e)
    ensures var run := Study(agents, symbols, focus, studyName, studyId);
            && run.result == ErrorMap(StudyFailedPrefix + e)
            && run.trace == [ResearchCalled(symbols, focus), DataSaved(JObj(research), ResearchFile(studyId)),
                             AnalysisCalled(research, symbols), ReportCalled(research, analysis, symbols),
                             ErrorLogged(StudyFailedPrefix + e)]
  {
  }

  /** The second save raising fails the study after the report, logged once and returned. */
  lemma CompleteSaveFails(agents: Agents, symbols: seq<string>, focus: string, studyName: string, studyId: string,
                          research: map<string, Json>, path: string, analysis: map<string, Json>,
                          report: map<string, Json>, e: string)
    requires agents.conductResearch(symbols, focus) == Returned(research) && "error" !in research
    requires agents.saveResearchData(JObj(research), ResearchFile(studyId)) == Written(path)
    requires agents.analyzeFinancialRisk(research, symbols) == Returned(analysis) && "error" !in analysis
    requires agents.generateResearchReport(research, analysis, symbols) == Returned(report)
    requires Truthy(Get(report, "success", JBool(false)))
    requires agents.saveResearchData(JObj(CompleteStudy(symbols, focus, studyName, studyId, path, research, analysis, report)),
                                     CompleteFile(studyId)) == WriteFailed(e)
    ensures var run := Study(agents, symbols, focus, studyName, studyId);
            && run.result == ErrorMap(StudyFailedPrefix + e)
            && run.trace == [ResearchCalled(symbols, focus), DataSaved(JObj(research), ResearchFile(studyId)),
                             AnalysisCalled(research, symbols), ReportCalled(research, analysis, symbols),
                             DataSaved(JObj(CompleteStudy(symbols, focus, studyName, studyId, path, research, analysis, report)),
                                       CompleteFile(studyId)),
                             ErrorLogged(StudyFailedPrefix + e)]
  {
    var complete := CompleteStudy(symbols, focus, studyName, studyId, path, research, analysis, report);
    var built := map["study_metadata" := Metadata(symbols, focus, studyName, studyId)]
                   ["data_research" := JObj(research)]["data_research_path" := JStr(path)]
                   ["risk_analysis" := JObj(analysis)]["research_report" := JObj(report)];
    assert built == complete;
  }

  /**
   * Every phase passes: no agent or save raises, neither agent result carries
   * `error`, the report has a truthy `success` and the closing lookup succeeds.
   */
  predicate AllPhasesPass(agents: Agents, symbols: seq<string>, focus: string, studyName: string, studyId: string) {
    match agents.conductResearch(symbols, focus)
    case Raised(_) => false
    case Returned(research) =>
      "error" !in research &&
      match agents.saveResearchData(JObj(research), ResearchFile(studyId))
      case WriteFailed(_) => false
      case Written(path) =>
        match agents.analyzeFinancialRisk(research, symbols)
        case Raised(_) => false
        case Returned(analysis) =>
          "error" !in analysis &&
          match agents.generateResearchReport(research, analysis, symbols)
          case Raised(_) => false
          case Returned(report) =>
            && Truthy(Get(report, "success", JBool(false)))
            && agents.saveResearchData(JObj(CompleteStudy(symbols, focus, studyName, studyId, path, research, analysis, report)),
                                       CompleteFile(studyId)).Written?
            && FilepathLookup(report) == None
  }

  /**
   * The five study keys come back exactly when every phase passed; whenever a phase
   * fails or anything raises, the only key is `error`.
   */
  lemma StudyCompletesIff(agents: Agents, symbols: seq<string>, focus: string, studyName: string, studyId: string)
    ensures var r := Study(agents, symbols, focus, studyName, studyId).result;
            && (r.Keys == StudyKeys <==> AllPhasesPass(agents, symbols, focus, studyName, studyId))
            && (r.Keys == {"error"} <==> !AllPhasesPass(agents, symbols, focus, studyName, studyId))
  {
    match agents.conductResearch(symbols, focus)
    case Raised(_) =>
    case Returned(research) =>
      match agents.saveResearchData(JObj(research), ResearchFile(studyId))
      case WriteFailed(_) =>
      case Written(path) =>
        match agents.analyzeFinancialRisk(research, symbols)
        case Raised(_) =>
        case Returned(analysis) =>
          match agents.generateResearchReport(research, analysis, symbols)
          case Raised(_) =>
          case Returned(report) =>
            var complete := CompleteStudy(symbols, focus, studyName, studyId, path, research, analysis, report);
            var built := map["study_metadata" := Metadata(symbols, focus, studyName, studyId)]
                           ["data_research" := JObj(research)]["data_research_path" := JStr(path)]
                           ["risk_analysis" := JObj(analysis)]["research_report" := JObj(report)];
            assert built == complete;
  }

  /** The kind of a step, for stating the order of the phases. */
  datatype Step = ResearchStep | SaveStep | AnalysisStep | ReportStep | LogStep

  function StepOf(e: Event): Step {
    match e
    case ResearchCalled(_, _) => ResearchStep
    case DataSaved(_, _) => SaveStep
    case AnalysisCalled(_, _) => AnalysisStep
    case ReportCalled(_, _, _) => ReportStep
    case ErrorLogged(_) => LogStep
  }

  function Steps(trace: seq<Event>): (s: seq<Step>)
    ensures |s| == |trace|
  {
    seq(|trace|, i requires 0 <= i < |trace| => StepOf(trace[i]))
  }

  /** The fixed order of the phases and saves of a study. */
  const Pipeline: seq<Step> := [ResearchStep, SaveStep, AnalysisStep, ReportStep, SaveStep]

  /** A prefix of the pipeline, possibly followed by one error-log append. */
  predicate PipelinePrefix(steps: seq<Step>, n: nat) {
    1 <= n <= |Pipeline| && (steps == Pipeline[..n] || steps == Pipeline[..n] + [LogStep])
  }

  /**
   * What every study keeps to: it runs a non-empty prefix of research, save, analysis,
   * report, save, each at most once and in that order. It appends to the error log at
   * most once, as its last step, and then returns that same "Research study failed: "
   * message.
   */
  ghost predicate WellOrdered(run: StudyRun) {
    && (exists n :: PipelinePrefix(Steps(run.trace), n))
    && (forall i :: 0 <= i < |run.trace| - 1 ==> !run.trace[i].ErrorLogged?)
    && (|run.trace| > 0 && run.trace[|run.trace| - 1].ErrorLogged? ==>
          && run.result == ErrorMap(run.trace[|run.trace| - 1].message)
          && StudyFailedPrefix <= run.trace[|run.trace| - 1].message)
  }

  /** Every study keeps to the pipeline order and logs at most one error, last. */
  lemma StudyOrder(agents: Agents, symbols: seq<string>, focus: string, studyName: string, studyId: string)
    ensures WellOrdered(Study(agents, symbols, focus, studyName, studyId))
  {
    var t := [ResearchCalled(symbols, focus)];
    assert Follows(t, 1);
    match agents.conductResearch(symbols, focus)
    case Raised(e) => FollowsFails(t, e);
    case Returned(research) =>
      if "error" in research {
        FollowsStops(t, ErrorMap(ResearchFailedPrefix + Str(research["error"])));
      } else {
        var t' := t + [DataSaved(JObj(research), ResearchFile(studyId))];
        FollowsExtend(t, DataSaved(JObj(research), ResearchFile(studyId)));
        match agents.saveResearchData(JObj(research), ResearchFile(studyId))
        case WriteFailed(e) => FollowsFails(t', e);
        case Written(path) =>
          var withData := map["study_metadata" := Metadata(symbols, focus, studyName, studyId)]
                            ["data_research" := JObj(research)]["data_research_path" := JStr(path)];
          AnalysisOrder(agents, symbols, withData, research, studyId, t');
      }
  }

  /** From the analysis phase on, a study that has followed the pipeline so far keeps to it. */
  lemma AnalysisOrder(agents: Agents, symbols: seq<string>, studyResults: map<string, Json>,
                      research: map<string, Json>, studyId: string, trace: seq<Event>)
    requires Follows(trace, 2)
    ensures WellOrdered(AnalysisPhase(agents, symbols, studyResults, research, studyId, trace))
  {
    var t := trace + [AnalysisCalled(research, symbols)];
    FollowsExtend(trace, AnalysisCalled(research, symbols));
    match agents.analyzeFinancialRisk(research, symbols)
    case Raised(e) => FollowsFails(t, e);
    case Returned(analysis) =>
      if "error" in analysis {
        FollowsStops(t, ErrorMap(AnalysisFailedPrefix + Str(analysis["error"])));
      } else {
        ReportOrder(agents, symbols, studyResults["risk_analysis" := JObj(analysis)], research, analysis, studyId, t);
      }
  }

  /** From the report phase on, a study that has followed the pipeline so far keeps to it. */
  lemma ReportOrder(agents: Agents, symbols: seq<string>, studyResults: map<string, Json>,
                    research: map<string, Json>, analysis: map<string, Json>, studyId: string, trace: seq<Event>)
    requires Follows(trace, 3)
    ensures WellOrdered(ReportPhase(agents, symbols, studyResults, research, analysis, studyId, trace))
  {
    var t := trace + [ReportCalled(research, analysis, symbols)];
    FollowsExtend(trace, ReportCalled(research, analysis, symbols));
    match agents.generateResearchReport(research, analysis, symbols)
    case Raised(e) => FollowsFails(t, e);
    case Returned(report) =>
      if !Truthy(Get(report, "success", JBool(false))) {
        FollowsStops(t, ErrorMap(ReportFailedPrefix + Str(Get(report, "error", JStr(UnknownError)))));
      } else {
        var complete := studyResults["research_report" := JObj(report)];
        var t' := t + [DataSaved(JObj(complete), CompleteFile(studyId))];
        FollowsExtend(t, DataSaved(JObj(complete), CompleteFile(studyId)));
        match agents.saveResearchData(JObj(complete), CompleteFile(studyId))
        case WriteFailed(e) => FollowsFails(t', e);
        case Written(_) =>
          match FilepathLookup(report)
          case Some(e) => FollowsFails(t', e);
          case None => FollowsStops(t', complete);
      }
  }

  /** The trace has exactly `n` steps, the first `n` of the pipeline. */
  predicate Follows(trace: seq<Event>, n: nat) {
    n <= |Pipeline| && |trace| == n && forall i :: 0 <= i < n ==> StepOf(trace[i]) == Pipeline[i]
  }

  lemma FollowsExtend(trace: seq<Event>, e: Event)
    requires |trace| < |Pipeline| && Follows(trace, |trace|) && StepOf(e) == Pipeline[|trace|]
    ensures Follows(trace + [e], |trace| + 1)
  {
  }

  /** Stopping after a pipeline prefix, without a log append, keeps to the order. */
  lemma FollowsStops(trace: seq<Event>, result: map<string, Json>)
    requires 1 <= |trace| && Follows(trace, |trace|)
    ensures WellOrdered(StudyRun(result, trace))
  {
    PrefixWitness(trace, |trace|, false);
    NoLogInPipeline(trace);
  }

  /** Failing after a pipeline prefix logs once, last, and returns the logged message. */
  lemma FollowsFails(trace: seq<Event>, e: string)
    requires 1 <= |trace| && Follows(trace, |trace|)
    ensures WellOrdered(Failed(e, trace))
  {
    var t := Failed(e, trace).trace;
    PrefixWitness(t, |trace|, true);
    NoLogInPipeline(trace);
  }

  /** A pipeline step is never an error-log append. */
  lemma NoLogInPipeline(trace: seq<Event>)
    requires Follows(trace, |trace|)
    ensures forall i :: 0 <= i < |trace| ==> !trace[i].ErrorLogged?
  {
    forall i | 0 <= i < |trace| ensures !trace[i].ErrorLogged? {
      assert StepOf(trace[i]) == Pipeline[i] != LogStep;
    }
  }

  /** A trace whose first `n` steps follow the pipeline, with or without a final log append. */
  lemma PrefixWitness(trace: seq<Event>, n: nat, logged: bool)
    requires 1 <= n <= 5 && |trace| == (if logged then n + 1 else n)
    requires forall i :: 0 <= i < n ==> StepOf(trace[i]) == Pipeline[i]
    requires logged ==> trace[n].ErrorLogged?
    ensures PipelinePrefix(Steps(trace), n)
  {
    var steps := Steps(trace);
    if logged {
      assert steps == Pipeline[..n] + [LogStep];
    } else {
      assert steps == Pipeline[..n];
    }
  }
}
