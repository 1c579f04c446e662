// The audit database as a value, and what each statement of src/audit.rs does
// to it.  Columns of a row are named by a datatype; a digest is the row it was
// taken of, which is how collision freedom enters the model.
module AuditModel {
  import opened Outcomes
  import opened Texts
  import DependencyGraph

  datatype Kind = Observation | PracticeItem | Finding | Review | Session | Unsupported

  datatype Ref = Ref(kind: Kind, id: int)

  datatype Column =
    | Outcome | EffectiveStatus | AssessmentKind | WeaknessKey
    | ExerciseInstance | StimulusIdentity | SourceEvent
    | EffectiveSummary | SummaryKey | SummaryValue
    | PracticeItemId | AttemptId | SessionId | Original | Suggestion | Note
    | Revision | Column(name: string)

  // JSON values.  Encoded(v) is the string that holds the JSON text of v, so
  // encoding a string never gives that string back.
  datatype Value =
    | Null
    | Number(n: int)
    | Text(s: string)
    | Encoded(of: Value)
    | List(items: seq<Value>)

  type Row = map<Column, Value>

  datatype Digest = Sha256(of: Row) | Hex(text: string)

  datatype Payload = Fields(m: Row) | NotAnObject

  datatype Operation =
    | AmendAssessment | RetractObservation | ReclassifyFinding | LinkContinuation
    | MarkDuplicate | ReassignTarget | AddRecoveredFinding | InvalidateReview | AmendSummary

  datatype Certainty = Supported | Disputed | InsufficientEvidence

  datatype SourceTarget = Field(ref: Ref, column: Column) | Amendment(name: string) | Malformed(raw: string)

  datatype SourceRef = SourceRef(target: SourceTarget, excerpt: Option<string>, sourceHash: Option<string>)

  datatype Proposal = Proposal(
    runId: string, id: string, schemaVersion: int, entity: Ref, expectedRevision: int,
    beforeHash: Digest, operation: Operation, before: Payload, after: Payload,
    sources: seq<SourceRef>, reason: string, issueClass: string, certainty: Certainty,
    reviewer: string, promptVersion: string, dependencies: seq<string>)

  datatype Batch = Batch(runId: string, boundary: string, snapshotHash: string, promptVersion: string,
                         proposals: seq<Proposal>)

  datatype Status = Proposed | Applied | Rejected | InDispute | Reverted

  datatype Amended = Amended(proposal: Proposal, status: Status)

  datatype Summary = Summary(content: Value, revision: int)

  datatype Run = Run(boundary: string, completed: bool, proposedCount: int, appliedCount: int)

  datatype Db = Db(
    rows: map<Ref, Row>, summaries: Summaries, ledger: seq<Amended>, runs: map<string, Run>,
    nextFinding: int, weaknesses: set<string>, attempts: set<(int, int)>)

  // The tables that amendments write, compared as one value.
  datatype Tables = Tables(rows: map<Ref, Row>, summaries: Summaries)

  function TablesOf(db: Db): Tables {
    Tables(db.rows, db.summaries)
  }

  datatype AuditError = InvalidBatch | MissingEntity | StaleProposal | WriteRefused | LedgerConflict | NothingApplied

  const SCHEMA_VERSION := 1
  const AUDIT_QUALITY := Text("audit_quality")
  const RETRACTED := Text("retracted")
  const INVALIDATED := Text("invalidated")
  const CONTENT_STATUSES := ["active", "retracted", "disputed"]
  const REVIEW_STATUSES := ["active", "invalidated", "disputed"]
  const OBSERVATION_OUTCOMES := ["incorrect", "partially_correct", "correct", "prompted_correct", "omitted"]
  const ITEM_OUTCOMES := ["incorrect", "partially_correct", "correct", "omitted"]
  const FINDING_KINDS := ["error", "awkward", "regional_variant", "stylistic_improvement", "accepted"]

  // ----- values and rows

  predicate IsString(v: Value) {
    v.Text? || v.Encoded?
  }

  predicate IsOneOf(v: Value, words: seq<string>) {
    v.Text? && v.s in words
  }

  // JSON of one character of a string.
  function Escaped(c: char): string {
    match c
    case '"' => "\\\""
    case '\\' => "\\\\"
    case '\n' => "\\n"
    case '\r' => "\\r"
    case '\t' => "\\t"
    case _ =>
      if c == 8 as char then "\\b"
      else if c == 12 as char then "\\f"
      else if c < ' ' then "\\u00" + [HexDigit(c as int / 16), HexDigit(c as int % 16)]
      else [c]
  }

  function HexDigit(n: int): char
    requires 0 <= n < 16
  {
    "0123456789abcdef"[n]
  }

  function Quoted(s: string): string {
    "\"" + EscapedAll(s) + "\""
  }

  function EscapedAll(s: string): string {
    if s == [] then [] else Escaped(s[0]) + EscapedAll(s[1..])
  }

  // The JSON text of a value.
  function JsonText(v: Value): string {
    match v
    case Null => "null"
    case Number(n) => if n < 0 then "-" + Decimal(-n) else Decimal(n)
    case Text(s) => Quoted(s)
    case Encoded(of) => Quoted(JsonText(of))
    case List(items) => "[" + JsonItems(items) + "]"
  }

  function JsonItems(items: seq<Value>): string {
    if items == [] then []
    else if |items| == 1 then JsonText(items[0])
    else JsonText(items[0]) + "," + JsonItems(items[1..])
  }

  // v is a string, and the excerpt is part of it.
  predicate Quotes(v: Value, excerpt: string) {
    (v.Text? && Contains(v.s, excerpt)) || (v.Encoded? && Contains(JsonText(v.of), excerpt))
  }

  function Get(row: Row, c: Column): Value {
    if c in row then row[c] else Null
  }

  function Rev(row: Row): int {
    if Get(row, Revision).Number? then Get(row, Revision).n else 0
  }

  // SQL: COALESCE(the field as a string, the column)
  function Coalesce(row: Row, after: Row, c: Column): Row {
    if IsString(Get(after, c)) then row[c := after[c]] else row
  }

  function StringOrNull(after: Row, c: Column): Value {
    if IsString(Get(after, c)) then after[c] else Null
  }

  predicate IsHexDigit(c: char) {
    '0' <= c <= '9' || 'a' <= c <= 'f' || 'A' <= c <= 'F'
  }

  predicate HexDigest(s: string) {
    |s| == 64 && forall i :: 0 <= i < |s| ==> IsHexDigit(s[i])
  }

  predicate DigestWellFormed(d: Digest) {
    d.Sha256? || HexDigest(d.text)
  }

  // ----- table constraints

  predicate ChecksHold(kind: Kind, row: Row) {
    match kind
    case Observation => IsOneOf(Get(row, Outcome), OBSERVATION_OUTCOMES) &&
      IsOneOf(Get(row, EffectiveStatus), CONTENT_STATUSES)
    case PracticeItem =>
      && (Get(row, Outcome) == Null || IsOneOf(Get(row, Outcome), ITEM_OUTCOMES))
      && IsOneOf(Get(row, EffectiveStatus), CONTENT_STATUSES)
    case Finding => IsOneOf(Get(row, AssessmentKind), FINDING_KINDS) &&
      IsOneOf(Get(row, EffectiveStatus), CONTENT_STATUSES)
    case Review => IsOneOf(Get(row, EffectiveStatus), REVIEW_STATUSES)
    case Session => true
    case Unsupported => false
  }

  // A source event belongs to at most one session.
  predicate EventFree(rows: map<Ref, Row>, ref: Ref, event: Value) {
    IsString(event) ==>
      forall r :: r in rows && r != ref && r.kind == Session ==> Get(rows[r], SourceEvent) != event
  }

  predicate WriteAllowed(rows: map<Ref, Row>, ref: Ref, row: Row) {
    ChecksHold(ref.kind, row) && (ref.kind == Session ==> EventFree(rows, ref, Get(row, SourceEvent)))
  }

  predicate RowTyped(kind: Kind, row: Row, weaknesses: set<string>) {
    && ChecksHold(kind, row)
    && Get(row, Revision).Number?
    && Get(row, Revision).n >= 1
    && EffectiveSummary !in row
    && (kind == Observation ==> Get(row, WeaknessKey).Text? && Get(row, WeaknessKey).s in weaknesses)
    && (kind == Observation || kind == PracticeItem ==> Outcome in row)
    && (kind == Session ==>
          && ExerciseInstance in row && StimulusIdentity in row && SourceEvent in row
          && (forall c :: c in {ExerciseInstance, StimulusIdentity, SourceEvent} ==>
               row[c] == Null || IsString(row[c])))
  }

  predicate WellTyped(db: Db) {
    && (forall r :: r in db.rows ==> RowTyped(r.kind, db.rows[r], db.weaknesses))
    && (forall r :: r in db.rows && r.kind == Session ==> EventFree(db.rows, r, Get(db.rows[r], SourceEvent)))
    && (forall r :: r in db.rows && r.kind == Finding ==> r.id < db.nextFinding)
    && (forall k :: k in db.summaries ==> Ref(Session, k.0) in db.rows)
  }

  // A summary carries a revision its session has already reached.
  predicate SummariesDated(db: Db) {
    forall k :: k in db.summaries ==>
      Ref(Session, k.0) in db.rows && db.summaries[k].revision <= Rev(db.rows[Ref(Session, k.0)])
  }

  // ----- reading

  // entity_value: the row as JSON; a session also shows its audit summary text.
  function EntityValue(db: Db, ref: Ref): Option<Row> {
    if ref.kind == Unsupported || ref !in db.rows then None
    else if ref.kind == Session then
      var key := (ref.id, AUDIT_QUALITY);
      Some(db.rows[ref][EffectiveSummary := if key in db.summaries then Encoded(db.summaries[key].content) else Null])
    else Some(db.rows[ref])
  }

  function Find(ledger: seq<Amended>, runId: string, id: string): Option<Amended> {
    if ledger == [] then None
    else if ledger[0].proposal.runId == runId && ledger[0].proposal.id == id then Some(ledger[0])
    else Find(ledger[1..], runId, id)
  }

  // ----- validation

  predicate Only(after: Row, allowed: set<Column>) {
    after.Keys <= allowed
  }

  predicate OperationFits(p: Proposal, after: Row) {
    match p.operation
    case AmendAssessment =>
      p.entity.kind in {Observation, PracticeItem, Review} && Only(after, {Outcome, EffectiveStatus})
    case RetractObservation =>
      p.entity.kind == Observation && Only(after, {EffectiveStatus}) && Get(after, EffectiveStatus) == RETRACTED
    case ReclassifyFinding =>
      p.entity.kind == Finding && Only(after, {AssessmentKind, EffectiveStatus})
    case LinkContinuation =>
      p.entity.kind == Session && Only(after, {ExerciseInstance, StimulusIdentity, SourceEvent})
    case MarkDuplicate =>
      && p.entity.kind in {Observation, PracticeItem, Finding}
      && Only(after, {EffectiveStatus}) && Get(after, EffectiveStatus) == RETRACTED
    case ReassignTarget =>
      p.entity.kind == Observation && Only(after, {WeaknessKey}) && IsString(Get(after, WeaknessKey))
    case AddRecoveredFinding =>
      p.entity.kind == Session && {PracticeItemId, AttemptId, AssessmentKind, Original} <= after.Keys
    case InvalidateReview =>
      p.entity.kind == Review && Only(after, {EffectiveStatus}) && Get(after, EffectiveStatus) == INVALIDATED
    case AmendSummary =>
      && p.entity.kind == Session && Only(after, {SummaryKey, SummaryValue})
      && IsString(Get(after, SummaryKey)) && SummaryValue in after
  }

  predicate OperationValid(p: Proposal) {
    && p.schemaVersion == SCHEMA_VERSION
    && !Blank(p.runId) && !Blank(p.id)
    && p.expectedRevision >= 1 && DigestWellFormed(p.beforeHash)
    && !Blank(p.reason) && !Blank(p.issueClass) && !Blank(p.reviewer) && !Blank(p.promptVersion)
    && p.before.Fields? && p.after.Fields?
    && OperationFits(p, p.after.m)
  }

  predicate SourceValid(db: Db, s: SourceRef) {
    && (s.target.Malformed? ==> false)
    && (s.target.Amendment? ==> !Blank(s.target.name) && s.excerpt.None?)
    && (s.sourceHash.Some? ==> HexDigest(s.sourceHash.value))
    && (s.target.Field? ==>
          var current := EntityValue(db, s.target.ref);
          && current.Some?
          && (s.excerpt.Some? && s.excerpt.value != "" ==>
                Quotes(Get(current.value, s.target.column), s.excerpt.value)))
  }

  predicate DependencyKnown(batch: Batch, i: nat, d: string)
    requires i < |batch.proposals|
  {
    || (exists j :: 0 <= j <= i && batch.proposals[j].id == d)
    || (exists j :: 0 <= j < |batch.proposals| && batch.proposals[j].runId + ":" + batch.proposals[j].id == d)
  }

  // The checks on a proposal the ledger has not seen.
  predicate FreshValid(db: Db, batch: Batch, i: nat)
    requires i < |batch.proposals|
  {
    var p := batch.proposals[i];
    var current := EntityValue(db, p.entity);
    && current.Some?
    && (p.sources == [] ==> p.certainty != Supported)
    && (forall k :: 0 <= k < |p.sources| ==> SourceValid(db, p.sources[k]))
    && (p.operation != AddRecoveredFinding ==>
          Get(current.value, Revision) == Number(p.expectedRevision) && p.beforeHash == Sha256(current.value))
    && (forall k :: 0 <= k < |p.dependencies| ==> DependencyKnown(batch, i, p.dependencies[k]))
  }

  predicate ProposalValid(db: Db, batch: Batch, i: nat)
    requires i < |batch.proposals|
  {
    var p := batch.proposals[i];
    var recorded := Find(db.ledger, p.runId, p.id);
    && p.runId == batch.runId
    && (forall j :: 0 <= j < i ==> batch.proposals[j].id != p.id)
    && OperationValid(p)
    && (recorded.Some? ==>
          && recorded.value.status == Applied
          && recorded.value.proposal.operation == p.operation
          && recorded.value.proposal.after == p.after)
    && (recorded.None? ==> FreshValid(db, batch, i))
  }

  predicate MetadataComplete(batch: Batch) {
    !Blank(batch.runId) && !Blank(batch.boundary) && |batch.snapshotHash| == 64 && !Blank(batch.promptVersion)
  }

  // A dependency may carry the batch's own run id as a prefix.
  function LocalName(runId: string, d: string): string {
    var prefix := runId + ":";
    if prefix <= d then d[|prefix|..] else d
  }

  function Keys(ps: seq<Proposal>): set<string> {
    set i | 0 <= i < |ps| :: ps[i].id
  }

  function Edges(runId: string, keys: set<string>, deps: seq<string>): (r: seq<string>)
    ensures forall i :: 0 <= i < |r| ==> r[i] in keys
  {
    if deps == [] then []
    else
      var rest := Edges(runId, keys, deps[1..]);
      if LocalName(runId, deps[0]) in keys then [LocalName(runId, deps[0])] + rest else rest
  }

  function GraphOf(runId: string, keys: set<string>, ps: seq<Proposal>): (g: DependencyGraph.Graph)
    ensures g.Keys == Keys(ps)
    ensures forall n, i :: n in g && 0 <= i < |g[n]| ==> g[n][i] in keys
  {
    if ps == [] then map[]
    else
      var last := ps[|ps| - 1];
      assert Keys(ps) == Keys(ps[..|ps| - 1]) + {last.id} by {
        forall k | k in Keys(ps)
          ensures k in Keys(ps[..|ps| - 1]) + {last.id}
        {
          var i :| 0 <= i < |ps| && ps[i].id == k;
          assert i < |ps| - 1 ==> ps[..|ps| - 1][i].id == k;
        }
      }
      GraphOf(runId, keys, ps[..|ps| - 1])[last.id := Edges(runId, keys, last.dependencies)]
  }

  function Dependencies(batch: Batch): (g: DependencyGraph.Graph)
    ensures DependencyGraph.Closed(g)
  {
    GraphOf(batch.runId, Keys(batch.proposals), batch.proposals)
  }

  ghost predicate BatchValid(db: Db, batch: Batch) {
    && MetadataComplete(batch)
    && (forall i {:trigger ProposalValid(db, batch, i)} :: 0 <= i < |batch.proposals| ==> ProposalValid(db, batch, i))
    && DependencyGraph.Acyclic(Dependencies(batch))
  }

  // ----- writing

  // An UPDATE guarded by the expected revision: no row matches, or one is rewritten.
  function UpdateWhere(db: Db, ref: Ref, expected: int, row: Row): Result<Db, AuditError> {
    if ref !in db.rows || Get(db.rows[ref], Revision) != Number(expected) then Success(db)
    else if !WriteAllowed(db.rows, ref, row) then Failure(WriteRefused)
    else Success(db.(rows := db.rows[ref := row[Revision := Number(expected + 1)]]))
  }

  // The column changes of each operation, before the revision is raised.
  function Amend(kind: Kind, op: Operation, after: Row, row: Row): Row {
    match op
    case AmendAssessment =>
      if kind == Review then Coalesce(row, after, EffectiveStatus)
      else Coalesce(Coalesce(row, after, Outcome), after, EffectiveStatus)
    case RetractObservation => row[EffectiveStatus := RETRACTED]
    case MarkDuplicate => row[EffectiveStatus := RETRACTED]
    case ReclassifyFinding => Coalesce(Coalesce(row, after, AssessmentKind), after, EffectiveStatus)
    case LinkContinuation =>
      row[ExerciseInstance := StringOrNull(after, ExerciseInstance)]
         [StimulusIdentity := StringOrNull(after, StimulusIdentity)]
         [SourceEvent := StringOrNull(after, SourceEvent)]
    case ReassignTarget => row[WeaknessKey := Get(after, WeaknessKey)]
    case InvalidateReview => row[EffectiveStatus := INVALIDATED]
    case AddRecoveredFinding => row
    case AmendSummary => row
  }

  predicate FindingInsertable(db: Db, sid: int, after: Row) {
    && Ref(Session, sid) in db.rows
    && IsOneOf(Get(after, AssessmentKind), FINDING_KINDS)
    && IsString(Get(after, Original))
    && (Get(after, PracticeItemId).Number? ==>
          var item := Ref(PracticeItem, Get(after, PracticeItemId).n);
          item in db.rows && Get(db.rows[item], SessionId) == Number(sid))
    && (Get(after, AttemptId).Number? ==> (Get(after, AttemptId).n, sid) in db.attempts)
    && (Get(after, PracticeItemId).Number? || Get(after, AttemptId).Number? || Get(after, Original) != Text(""))
  }

  function NumberOrNull(after: Row, c: Column): Value {
    if Get(after, c).Number? then after[c] else Null
  }

  function NewFinding(sid: int, after: Row): Row {
    map[SessionId := Number(sid), PracticeItemId := NumberOrNull(after, PracticeItemId),
        AttemptId := NumberOrNull(after, AttemptId), AssessmentKind := Get(after, AssessmentKind),
        Original := Get(after, Original), Suggestion := StringOrNull(after, Suggestion),
        Note := StringOrNull(after, Note), EffectiveStatus := Text("active"), Revision := Number(1)]
  }

  type Summaries = map<(int, Value), Summary>

  // A null value deletes the summary; any other value replaces it.
  function WriteSummary(s: Summaries, sid: int, key: Value, value: Value, revision: int): Summaries {
    if value == Null then s - {(sid, key)} else s[(sid, key) := Summary(value, revision)]
  }

  // The kinds whose table an operation's UPDATE names.
  predicate HasTable(op: Operation, kind: Kind) {
    match op
    case AmendAssessment => kind in {Observation, PracticeItem, Review}
    case RetractObservation => kind in {Observation, PracticeItem, Finding}
    case MarkDuplicate => kind in {Observation, PracticeItem, Finding}
    case _ => true
  }

  // The statements of set_status: one guarded UPDATE, followed for a summary by
  // the write of its text; or the insertion of a recovered finding.
  function Statements(db: Db, p: Proposal, after: Row): Result<Db, AuditError> {
    var row := if p.entity in db.rows then db.rows[p.entity] else map[];
    if p.operation == AddRecoveredFinding then
      if !FindingInsertable(db, p.entity.id, after) then Failure(WriteRefused)
      else Success(db.(rows := db.rows[Ref(Finding, db.nextFinding) := NewFinding(p.entity.id, after)],
                       nextFinding := db.nextFinding + 1))
    else if !HasTable(p.operation, p.entity.kind) then Failure(WriteRefused)
    else if p.operation == ReassignTarget &&
        !(Get(after, WeaknessKey).Text? && Get(after, WeaknessKey).s in db.weaknesses)
    then Success(db)
    else
      var d :- UpdateWhere(db, p.entity, p.expectedRevision, Amend(p.entity.kind, p.operation, after, row));
      if p.operation != AmendSummary then Success(d)
      else if p.entity !in db.rows then Failure(WriteRefused)
      else Success(d.(summaries :=
                        WriteSummary(d.summaries, p.entity.id, Get(after, SummaryKey), Get(after, SummaryValue),
                          p.expectedRevision + 1)))
  }

  // set_status: the statements, then the check that exactly the expected row moved.
  function SetStatus(db: Db, p: Proposal): Result<Db, AuditError> {
    var after := if p.after.Fields? then p.after.m else map[];
    var d :- Statements(db, p, after);
    if p.operation == AddRecoveredFinding then Success(d)
    else if p.entity !in d.rows then Failure(MissingEntity)
    else if Get(d.rows[p.entity], Revision) != Number(p.expectedRevision + 1) then Failure(StaleProposal)
    else Success(d)
  }

  datatype Progress = Progress(db: Db, applied: nat, skipped: nat)

  // One turn of the loop in apply_batch_tx.
  function ApplyOne(g: Progress, p: Proposal): Result<Progress, AuditError> {
    var recorded := Find(g.db.ledger, p.runId, p.id);
    if recorded.Some? && recorded.value.status == Applied then Success(g.(skipped := g.skipped + 1))
    else
      var current := EntityValue(g.db, p.entity);
      if current.None? then Failure(MissingEntity)
      else if p.operation != AddRecoveredFinding &&
              (Get(current.value, Revision) != Number(p.expectedRevision) || p.beforeHash != Sha256(current.value))
      then Failure(StaleProposal)
      else
        var d :- SetStatus(g.db, p);
        if recorded.Some? then Failure(LedgerConflict)
        else Success(Progress(d.(ledger := d.ledger + [Amended(p, Applied)]), g.applied + 1, g.skipped))
  }

  function ApplyAll(g: Progress, ps: seq<Proposal>): Result<Progress, AuditError>
    decreases |ps|
  {
    if ps == [] then Success(g)
    else
      var mid :- ApplyOne(g, ps[0]);
      ApplyAll(mid, ps[1..])
  }

  function OpenRun(db: Db, batch: Batch): Db {
    if batch.runId in db.runs then db
    else db.(runs := db.runs[batch.runId := Run("", false, |batch.proposals|, 0)])
  }

  function CloseRun(db: Db, batch: Batch, applied: nat): Db {
    if batch.runId !in db.runs then db
    else
      var run := db.runs[batch.runId];
      db.(runs := db.runs[batch.runId := Run(batch.boundary, true, run.proposedCount, run.appliedCount + applied)])
  }

  // apply_batch_tx
  function ApplyTransaction(db: Db, batch: Batch): Result<Progress, AuditError> {
    var done :- ApplyAll(Progress(OpenRun(db, batch), 0, 0), batch.proposals);
    Success(done.(db := CloseRun(done.db, batch, done.applied)))
  }

  // apply_batch
  ghost function Apply(db: Db, batch: Batch): Result<Progress, AuditError> {
    if !BatchValid(db, batch) then Failure(InvalidBatch) else ApplyTransaction(db, batch)
  }
}
