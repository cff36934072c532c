/** The policy and the violations the checks report. */
module Policy {
  import opened Syntax

  datatype Severity = Low | Medium | High | Critical

  function Rank(s: Severity): nat {
    match s
    case Low => 10
    case Medium => 20
    case High => 30
    case Critical => 40
  }

  datatype Action = BlockIt | TransformIt | WarnOnly

  datatype Violation = Violation(code: string, severity: Severity, action: Action)

  /** Table names to their allowed columns; `None`: every column. */
  type Allowlist = map<string, Option<set<string>>>

  /** The policy, its allowlists already folded to lower case. */
  datatype GuardPolicy = GuardPolicy(
    maxQueryChars: nat,
    maxQueryBytes: nat,
    dialect: string,
    fallbackDialects: seq<string>,
    readOnly: bool,
    allowInsert: bool,
    allowUpdate: bool,
    allowDelete: bool,
    allowDdl: bool,
    allowedTables: Option<Allowlist>,
    piiColumns: Option<map<string, set<string>>>,
    defaultLimit: Option<int>,
    maxLimit: Option<int>,
    blockCartesian: bool,
    blockTautology: bool,
    blockInferenceProbe: bool,
    costThreshold: Option<real>,
    maxEstimatedRows: Option<int>,
    minBlockSeverity: Severity)

  /** The policy built without arguments. */
  const DEFAULTS := GuardPolicy(100000, 400000, "postgres", [], true, false, false, false, false, None, None,
                                Some(1000), Some(10000), true, true, true, None, None, Medium)

  /** What the model validators accept. */
  predicate Accepted(p: GuardPolicy) {
    && (p.readOnly ==> !p.allowInsert && !p.allowUpdate && !p.allowDelete && !p.allowDdl)
    && (p.defaultLimit.Some? ==> p.defaultLimit.value >= 1)
    && (p.maxLimit.Some? ==> p.maxLimit.value >= 1)
  }

  /** `validate_production`. */
  predicate ProductionReady(p: GuardPolicy) {
    p.allowedTables.Some? && Rank(p.minBlockSeverity) <= Rank(High)
  }
}
