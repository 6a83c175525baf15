/**
 * `OpenAIAnalyzer.analyze_message` after the remote classifier has answered: the classifier's
 * own score and verdict are replaced by the blended score and the threshold test, and any
 * failure inside the call becomes a fixed all-clear result.
 *
 * The classifier itself (prompt, model, network) is a black box: its answer is an input.
 */
module Analyzer {
  import opened Wrappers
  import opened Scoring
  import Store

  /** The parsed JSON object the classifier answered with. */
  datatype ClassifierReply = ClassifierReply(
    spam: real,
    toxic: real,
    danger: real,
    reason: Option<string>,           // `reason` key, if the classifier sent it
    claimedScore: Option<real>,       // `violation_score` key, if the classifier sent one
    claimedViolation: Option<bool>)   // `violation` key, if the classifier sent one

  /**
   * What happens inside the `try`: an answer whose `spam`, `toxic` and `danger` are numbers,
   * or any exception (network, JSON decoding, a missing or non-numeric key).
   */
  datatype ClassifierOutcome = Answered(reply: ClassifierReply) | Failed

  /** The result dictionary `analyze_message` returns. */
  datatype ViolationResult = ViolationResult(
    spam: real,
    toxic: real,
    danger: real,
    violationScore: real,
    violation: bool,
    reason: Option<string>)

  /** The exception raised before the `try`. */
  datatype AnalyzerError = DataManagerNotSet

  /** The result on any failure inside the `try`: nothing is flagged. */
  function FailOpenResult(): ViolationResult {
    ViolationResult(0.0, 0.0, 0.0, 0.0, false, Some("Ошибка анализа"))
  }

  /**
   * The dictionary returned for a classifier outcome at a given sensitivity: the raw
   * sub-scores and reason pass through, `violation_score` and `violation` are recomputed.
   */
  function Analysis(outcome: ClassifierOutcome, sensitivity: int): (r: ViolationResult)
    ensures 0.0 <= r.violationScore <= 100.0
    ensures outcome.Answered? ==>
              && r.spam == outcome.reply.spam && r.toxic == outcome.reply.toxic
              && r.danger == outcome.reply.danger && r.reason == outcome.reply.reason
              && (r.violation <==> r.violationScore >= Threshold(sensitivity))
    ensures outcome.Failed? ==> !r.violation && r.violationScore == 0.0
  {
    match outcome
    case Failed => FailOpenResult()
    case Answered(reply) =>
      var score := CompositeScore(reply.spam, reply.toxic, reply.danger);
      ViolationResult(reply.spam, reply.toxic, reply.danger, score, IsViolation(score, sensitivity), reply.reason)
  }

  /** Whatever score and verdict the classifier claims, they are overwritten by the scorer's. */
  lemma AnalysisOverwritesClaims(reply: ClassifierReply, score: Option<real>, verdict: Option<bool>, sensitivity: int)
    ensures Analysis(Answered(reply), sensitivity)
              == Analysis(Answered(reply.(claimedScore := score, claimedViolation := verdict)), sensitivity)
    ensures Analysis(Answered(reply), sensitivity).violationScore
              == CompositeScore(reply.spam, reply.toxic, reply.danger)
  {
  }

  /** A failure is fail-open at every sensitivity: all zero, not a violation, an error reason. */
  lemma AnalysisFailOpen(sensitivity: int)
    ensures var r := Analysis(Failed, sensitivity);
            r.spam == 0.0 && r.toxic == 0.0 && r.danger == 0.0 && r.violationScore == 0.0
            && !r.violation && r.reason == Some("Ошибка анализа")
  {
  }

  /** A higher sensitivity never clears a message the lower one flagged. */
  lemma AnalysisStricter(outcome: ClassifierOutcome, sensitivity: int, sensitivity': int)
    requires sensitivity <= sensitivity'
    requires Analysis(outcome, sensitivity).violation
    ensures Analysis(outcome, sensitivity').violation
  {
  }

  /** At a sensitivity of 1..100, an all-zero answer is never a violation and a saturated one always is. */
  lemma AnalysisExtremes(reply: ClassifierReply, sensitivity: int)
    requires 1 <= sensitivity <= 100
    ensures reply.spam <= 0.0 && reply.toxic <= 0.0 && reply.danger <= 0.0 ==>
              !Analysis(Answered(reply), sensitivity).violation
    ensures reply.spam >= 100.0 || reply.toxic >= 100.0 || reply.danger >= 100.0 ==>
              Analysis(Answered(reply), sensitivity).violation
  {
    if reply.spam <= 0.0 && reply.toxic <= 0.0 && reply.danger <= 0.0 {
      CompositeOfZero(reply.spam, reply.toxic, reply.danger);
    }
    if reply.spam >= 100.0 || reply.toxic >= 100.0 || reply.danger >= 100.0 {
      CompositeSaturates(reply.spam, reply.toxic, reply.danger);
    }
  }

  class OpenAIAnalyzer {
    /** `None` until `set_data_manager` is called. */
    var dataManager: Store.DataManager?

    constructor ()
      ensures dataManager == null
    {
      dataManager := null;
    }

    method SetDataManager(manager: Store.DataManager)
      modifies this
      ensures dataManager == manager
    {
      dataManager := manager;
    }

    /**
     * `analyze_message(text)`, with the classifier's behaviour on `text` given as `outcome`:
     * raises when no data manager is set, otherwise analyses at the current sensitivity.
     */
    method AnalyzeMessage(outcome: ClassifierOutcome) returns (r: Result<ViolationResult, AnalyzerError>)
      ensures dataManager == null <==> r == Failure(DataManagerNotSet)
      ensures dataManager != null ==>
                r == Success(Analysis(outcome, dataManager.settings.sensitivity))
    {
      if dataManager == null {
        return Failure(DataManagerNotSet);
      }
      match outcome {
        case Failed =>
          r := Success(FailOpenResult());
        case Answered(reply) =>
          var result := ViolationResult(reply.spam, reply.toxic, reply.danger, 0.0, false, reply.reason);
          result := result.(violationScore := CompositeScore(reply.spam, reply.toxic, reply.danger));
          var sensitivityThreshold := Threshold(dataManager.settings.sensitivity);
          result := result.(violation := result.violationScore >= sensitivityThreshold);
          r := Success(result);
      }
    }
  }
}
