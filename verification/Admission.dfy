/** The durable record that says which project is admitted, and its canonical form. */
module AdmissionRecord {
  import opened Options
  import opened PythonText

  /** The member names the record knows, in their spellings; Other is any other name. */
  datatype Key =
    | Schema | Version | Status | Session
    | ProjectId | ProjectID | Project
    | ContractRevision | ContractRevisionCamel
    | ReleaseEvidence | ReleaseEvidenceCamel | TerminalEvidence | TerminalEvidenceCamel
    | Id | SessionId | SessionID | SessionIdCamel | SourceSessionId | SourceSessionID
    | Endpoint | Resume | Identity | Server
    | PreviousSessionId | PreviousSessionID | RecordingEvidence | RecordingEvidenceCamel
    | Other(name: string)

  /** A decoded JSON value. */
  datatype Json = Null | Bool(b: bool) | Num(n: real) | Str(s: string) | Arr(a: seq<Json>) | Obj(m: map<Key, Json>)

  const STATE_SCHEMA := "factory.project-admission.v1"
  const STATE_VERSION := 1.0

  // ---------- checks on values ----------

  predicate IsId(v: Json) {
    v.Str? && v.s != "" && '\0' !in v.s
  }

  predicate IsText(v: Json) {
    IsId(v) && Strip(v.s) == v.s
  }

  predicate IsEndpoint(v: Json) {
    IsText(v) || (v.Obj? && v.m != map[])
  }

  predicate IsEvidence(v: Json) {
    !v.Null? && v != Bool(false) && v != Num(0.0) && v != Str("") && v != Obj(map[]) && v != Arr([])
  }

  function Values(m: map<Key, Json>, names: set<Key>): set<Json> {
    set name | name in names && name in m :: m[name]
  }

  // The owners a value mentions under any of the names, itself or in its identity.
  function Said(v: Json, names: set<Key>): set<Json> {
    if !v.Obj? then {}
    else Values(v.m, names) + if Identity in v.m && v.m[Identity].Obj? then Values(v.m[Identity].m, names) else {}
  }

  // What is said of the owner does not conflict, and is nothing else than this owner.
  predicate Owned(v: Json, names: set<Key>, owner: string) {
    var said := Said(v, names);
    said <= {Null} || said <= {Str(owner)}
  }

  const PROJECT_NAMES := {ProjectId, ProjectID, Project}
  const SESSION_NAMES := {SessionId, SessionID, SessionIdCamel}
  const SOURCE_SESSION_NAMES := {SourceSessionId, SourceSessionID, SessionId, SessionID, SessionIdCamel}

  predicate EndpointOwned(endpoint: Json, project: string, session: string) {
    Owned(endpoint, PROJECT_NAMES, project) && Owned(endpoint, SESSION_NAMES, session)
  }

  predicate RecordingOwned(recording: Json, project: string, session: string) {
    Owned(recording, PROJECT_NAMES, project) && Owned(recording, SOURCE_SESSION_NAMES, session)
  }

  function ServerOf(endpoint: Json): Option<string> {
    if endpoint.Str? then Some(endpoint.s)
    else if endpoint.Obj? && Server in endpoint.m && endpoint.m[Server].Str? then Some(endpoint.m[Server].s)
    else None
  }

  // ---------- the record ----------

  datatype RecordStatus = Active | Blocked | Released

  datatype Recovery = Recovery(previous: string, recording: Json)

  datatype Binding = Binding(id: string, endpoint: Json, recovery: Option<Recovery>)

  datatype Record = Record(status: RecordStatus, project: string, contract: string, session: Option<Binding>,
                           evidence: Option<Json>)

  predicate ValidBinding(b: Binding, project: string) {
    && IsId(Str(b.id)) && IsEndpoint(b.endpoint) && EndpointOwned(b.endpoint, project, b.id)
    && (b.recovery.Some? ==> ValidRecovery(b.recovery.value, project))
  }

  predicate ValidRecovery(r: Recovery, project: string) {
    IsId(Str(r.previous)) && IsEvidence(r.recording) && RecordingOwned(r.recording, project, r.previous)
  }

  /** What every record must be: a released one carries its evidence, no other does, and nothing in it names
      another owner. */
  predicate ValidRecord(r: Record) {
    && IsId(Str(r.project)) && IsId(Str(r.contract))
    && (r.session.Some? ==> ValidBinding(r.session.value, r.project))
    && (r.status.Released? <==> r.evidence.Some?)
    && (r.evidence.Some? ==> IsEvidence(r.evidence.value))
  }

  // ---------- writing ----------

  function StatusText(s: RecordStatus): string {
    match s
    case Active => "active"
    case Blocked => "blocked"
    case Released => "released"
  }

  function EncodeRecovery(r: Recovery): Json {
    Obj(map[PreviousSessionId := Str(r.previous), RecordingEvidence := r.recording])
  }

  function EncodeBinding(b: Binding): Json {
    var plain := map[Id := Str(b.id), Endpoint := b.endpoint];
    Obj(if b.recovery.Some? then plain[Resume := EncodeRecovery(b.recovery.value)] else plain)
  }

  function Encode(r: Record): Json {
    var plain := map[Schema := Str(STATE_SCHEMA), Version := Num(STATE_VERSION), Status := Str(StatusText(r.status)),
                     ProjectId := Str(r.project), ContractRevision := Str(r.contract),
                     Session := if r.session.Some? then EncodeBinding(r.session.value) else Null];
    Obj(if r.evidence.Some? then plain[ReleaseEvidence := r.evidence.value] else plain)
  }

  // ---------- reading ----------

  const ALLOWED := {Schema, Version, Status, Session, ProjectId, ProjectID, ContractRevision, ContractRevisionCamel,
                    ReleaseEvidence, ReleaseEvidenceCamel, TerminalEvidence, TerminalEvidenceCamel}

  const BINDING_ALLOWED := {Id, SessionId, SessionID, SessionIdCamel, Endpoint, Resume}

  // The first of the spellings that is present.
  function First(m: map<Key, Json>, names: seq<Key>): Option<Json> {
    if names == [] then None else if names[0] in m then Some(m[names[0]]) else First(m, names[1..])
  }

  predicate Agree(m: map<Key, Json>, names: seq<Key>) {
    forall name :: name in names && name in m ==> Some(m[name]) == First(m, names)
  }

  const PROJECT_ALIASES := [ProjectId, ProjectID]
  const CONTRACT_ALIASES := [ContractRevision, ContractRevisionCamel]
  const EVIDENCE_ALIASES := [ReleaseEvidence, ReleaseEvidenceCamel, TerminalEvidence, TerminalEvidenceCamel]
  const ID_ALIASES := [Id, SessionId, SessionID, SessionIdCamel]

  function IdIn(m: map<Key, Json>, names: seq<Key>): Option<string> {
    var found := First(m, names);
    if Agree(m, names) && found.Some? && IsId(found.value) then Some(found.value.s) else None
  }

  function ParseStatus(m: map<Key, Json>): Option<RecordStatus> {
    if Status !in m || m[Status] == Str("active") then Some(Active)
    else if m[Status] == Str("blocked") then Some(Blocked)
    else if m[Status] == Str("released") then Some(Released)
    else None
  }

  function CanonicalRecovery(raw: Json, project: string): Option<Recovery> {
    if !raw.Obj? then None
    else
      var previous := First(raw.m, [PreviousSessionId, PreviousSessionID]);
      var recording := First(raw.m, [RecordingEvidence, RecordingEvidenceCamel]);
      if previous.None? || !IsId(previous.value) || recording.None? || !IsEvidence(recording.value)
         || !RecordingOwned(recording.value, project, previous.value.s)
      then None
      else Some(Recovery(previous.value.s, recording.value))
  }

  function CanonicalBinding(raw: Json, project: string): Option<Binding> {
    if !raw.Obj? || !(raw.m.Keys <= BINDING_ALLOWED) then None
    else
      var id := IdIn(raw.m, ID_ALIASES);
      if id.None? || Endpoint !in raw.m || !IsEndpoint(raw.m[Endpoint]) then None
      else
        var recovery := if Resume in raw.m then CanonicalRecovery(raw.m[Resume], project) else None;
        if (Resume in raw.m && recovery.None?) || !EndpointOwned(raw.m[Endpoint], project, id.value) then None
        else Some(Binding(id.value, raw.m[Endpoint], recovery))
  }

  /** The record a decoded state file stands for, if it is acceptable. */
  function Canonical(raw: Json): Option<Record> {
    if !raw.Obj? || !(raw.m.Keys <= ALLOWED) || !Agree(raw.m, EVIDENCE_ALIASES)
       || (Schema in raw.m && raw.m[Schema] != Str(STATE_SCHEMA))
       || (Version in raw.m && raw.m[Version] != Num(STATE_VERSION))
    then None
    else
      var project, contract := IdIn(raw.m, PROJECT_ALIASES), IdIn(raw.m, CONTRACT_ALIASES);
      var evidence := First(raw.m, EVIDENCE_ALIASES);
      var status := ParseStatus(raw.m);
      if project.None? || contract.None? || status.None? then None
      else
        var bound := Session in raw.m && raw.m[Session] != Null;
        var session := if bound then CanonicalBinding(raw.m[Session], project.value) else None;
        if (bound && session.None?) || (status.value.Released? != evidence.Some?)
           || (evidence.Some? && !IsEvidence(evidence.value))
        then None
        else Some(Record(status.value, project.value, contract.value, session, evidence))
  }

  // ---------- the canonical form ----------

  lemma {:induction false} AbsentNames(m: map<Key, Json>, names: seq<Key>)
    requires forall name :: name in names ==> name !in m
    ensures First(m, names) == None
  {
    if names == [] {
    } else {
      AbsentNames(m, names[1..]);
    }
  }

  // When only the first spelling can be present, the spellings agree on it.
  lemma OneSpelling(m: map<Key, Json>, names: seq<Key>)
    requires names != [] && forall name :: name in names[1..] ==> name !in m
    ensures First(m, names) == if names[0] in m then Some(m[names[0]]) else None
    ensures Agree(m, names)
  {
    AbsentNames(m, names[1..]);
    assert names == [names[0]] + names[1..];
  }

  lemma RecoveryReadsBack(r: Recovery, project: string)
    requires ValidRecovery(r, project)
    ensures CanonicalRecovery(EncodeRecovery(r), project) == Some(r)
  {
    var m := EncodeRecovery(r).m;
    OneSpelling(m, [PreviousSessionId, PreviousSessionID]);
    OneSpelling(m, [RecordingEvidence, RecordingEvidenceCamel]);
  }

  lemma BindingReadsBack(b: Binding, project: string)
    requires ValidBinding(b, project)
    ensures CanonicalBinding(EncodeBinding(b), project) == Some(b)
  {
    var m := EncodeBinding(b).m;
    OneSpelling(m, ID_ALIASES);
    if b.recovery.Some? {
      RecoveryReadsBack(b.recovery.value, project);
    }
  }

  lemma EncodedNames(r: Record)
    ensures Encode(r).m.Keys <= ALLOWED
    ensures Agree(Encode(r).m, EVIDENCE_ALIASES) && First(Encode(r).m, EVIDENCE_ALIASES) == r.evidence
    ensures First(Encode(r).m, PROJECT_ALIASES) == Some(Str(r.project)) && Agree(Encode(r).m, PROJECT_ALIASES)
    ensures First(Encode(r).m, CONTRACT_ALIASES) == Some(Str(r.contract)) && Agree(Encode(r).m, CONTRACT_ALIASES)
  {
    var m := Encode(r).m;
    OneSpelling(m, PROJECT_ALIASES);
    OneSpelling(m, CONTRACT_ALIASES);
    OneSpelling(m, EVIDENCE_ALIASES);
  }

  lemma EncodedFields(r: Record)
    ensures ParseStatus(Encode(r).m) == Some(r.status)
    ensures Session in Encode(r).m && (r.session.None? <==> Encode(r).m[Session] == Null)
    ensures r.session.Some? ==> Encode(r).m[Session] == EncodeBinding(r.session.value)
  {
  }

  /** A valid record reads back as it was written. */
  lemma ReadsBack(r: Record)
    requires ValidRecord(r)
    ensures Canonical(Encode(r)) == Some(r)
  {
    EncodedNames(r);
    EncodedFields(r);
    if r.session.Some? {
      BindingReadsBack(r.session.value, r.project);
    }
  }

  lemma CanonicalIsValid(raw: Json)
    requires Canonical(raw).Some?
    ensures ValidRecord(Canonical(raw).value)
  {
    var r := Canonical(raw).value;
    if r.session.Some? {
      var m := raw.m[Session].m;
      assert r.session == CanonicalBinding(raw.m[Session], r.project);
    }
  }

  /** The records that can be read are exactly the valid ones. */
  lemma ReadableIffValid(r: Record)
    ensures ValidRecord(r) <==> exists raw :: Canonical(raw) == Some(r)
  {
    if ValidRecord(r) {
      ReadsBack(r);
    } else {
      forall raw | Canonical(raw) == Some(r) ensures false {
        CanonicalIsValid(raw);
      }
    }
  }

  /** The canonical form of a canonical form is itself, whatever spellings were read first. */
  lemma CanonicalIdempotent(raw: Json)
    requires Canonical(raw).Some?
    ensures Canonical(Encode(Canonical(raw).value)) == Canonical(raw)
  {
    CanonicalIsValid(raw);
    ReadsBack(Canonical(raw).value);
  }
}

/** The operations on the record, each as one transition, and the object that performs them on the state file. */
module ProjectAdmission {
  import opened Options
  import opened AdmissionRecord

  /** A call with its arguments as they arrive; Null stands for an argument that is not given. */
  datatype Op =
    | Admit(project: Json, contract: Json, session: Json, endpoint: Json)
    | Bind(project: Json, session: Json, endpoint: Json, contract: Json)
    | Recover(project: Json, contract: Json, server: Json, previous: Json, next: Json, recording: Json)
    | Release(project: Json, evidence: Json, contract: Json, session: Json, endpoint: Json)

  datatype Error = InvalidArgument | InvalidState | NotFound | Conflict | Mismatch

  /** What a call does: it returns the record as it is, or replaces it, or fails and changes nothing. */
  datatype Outcome = Kept(record: Record) | Written(record: Record) | Failed(error: Error)

  predicate Given(v: Json) {
    !v.Null?
  }

  predicate IsOptionalText(v: Json) {
    Given(v) ==> IsText(v)
  }

  // Release also accepts the contract and the evidence in the other order.
  function InOrder(op: Op): Op {
    if op.Release? && Given(op.evidence) && Given(op.contract) && !op.contract.Str?
    then op.(evidence := op.contract, contract := op.evidence)
    else op
  }

  // What is wrong with the arguments, whatever the record says.
  function ArgumentError(op: Op): Option<Error> {
    match op
    case Admit(project, contract, session, endpoint) =>
      if !IsText(project) || !IsText(contract) || (Given(session) != Given(endpoint)) || !IsOptionalText(session)
         || (Given(endpoint) && !IsEndpoint(endpoint))
      then Some(InvalidArgument)
      else if Given(endpoint) && !EndpointOwned(endpoint, project.s, session.s) then Some(Mismatch)
      else None
    case Bind(project, session, endpoint, contract) =>
      if !IsText(project) || !IsText(session) || !IsOptionalText(contract) || !IsEndpoint(endpoint)
      then Some(InvalidArgument)
      else if !EndpointOwned(endpoint, project.s, session.s) then Some(Mismatch)
      else None
    case Recover(project, contract, server, previous, next, recording) =>
      if !IsText(project) || !IsText(contract) || !IsText(server) || !IsText(previous) || !IsText(next)
      then Some(InvalidArgument)
      else if previous == next then Some(Mismatch)
      else if !IsEvidence(recording) then Some(InvalidArgument)
      else if !RecordingOwned(recording, project.s, previous.s) then Some(Mismatch)
      else None
    case Release(project, evidence, contract, session, endpoint) =>
      if !IsText(project) || !IsOptionalText(contract) || !IsOptionalText(session)
          || (Given(endpoint) && !IsEndpoint(endpoint))
         || (Given(endpoint) && !Given(session)) || !IsEvidence(evidence)
      then Some(InvalidArgument)
      else None
  }

  // Whether the session and endpoint of a call fit the record. A bare endpoint also fits a recorded server.
  predicate SessionFits(r: Record, session: Json, endpoint: Json)
    requires IsOptionalText(session)
  {
    if r.session.None? then
      || (!Given(session) && !Given(endpoint))
      || (Given(session) && Given(endpoint) && EndpointOwned(endpoint, r.project, session.s))
    else
      && (Given(session) ==> session == Str(r.session.value.id))
      && (Given(endpoint) ==> || endpoint == r.session.value.endpoint
                              || (endpoint.Str? && ServerOf(r.session.value.endpoint) == Some(endpoint.s)))
  }

  predicate Open(current: Option<Record>) {
    current.Some? && !current.value.status.Released?
  }

  function NewBinding(session: Json, endpoint: Json): Option<Binding>
    requires IsOptionalText(session)
  {
    if Given(session) then Some(Binding(session.s, endpoint, None)) else None
  }

  // Binds the session, if none is bound yet.
  function BindTo(r: Record, session: Json, endpoint: Json): Outcome
    requires IsText(session)
  {
    if r.session.None? then Written(r.(session := NewBinding(session, endpoint))) else Kept(r)
  }

  function OnRecord(op: Op, current: Option<Record>): Outcome
    requires ArgumentError(op).None?
  {
    match op
    case Admit(project, contract, session, endpoint) =>
      if !Open(current) then Written(Record(Active, project.s, contract.s, NewBinding(session, endpoint), None))
      else if current.value.project != project.s || current.value.contract != contract.s then Failed(Conflict)
      else if !Given(session) then Kept(current.value)
      else if !SessionFits(current.value, session, endpoint) then Failed(Mismatch)
      else BindTo(current.value, session, endpoint)
    case Bind(project, session, endpoint, contract) =>
      if !Open(current) then Failed(NotFound)
      else if current.value.project != project.s then Failed(Conflict)
      else if Given(contract) && current.value.contract != contract.s then Failed(Mismatch)
      else if !SessionFits(current.value, session, endpoint) then Failed(Mismatch)
      else BindTo(current.value, session, endpoint)
    case Recover(project, contract, server, previous, next, recording) =>
      if !Open(current) then Failed(NotFound)
      else
        var r := current.value;
        if r.project != project.s || r.contract != contract.s || r.session.None? || r.session.value.id != previous.s
           || ServerOf(r.session.value.endpoint) != Some(server.s)
        then Failed(Mismatch)
        else Written(r.(session := Some(Binding(next.s, Obj(map[Server := server]),
                                                Some(Recovery(previous.s, recording))))))
    case Release(project, evidence, contract, session, endpoint) =>
      if current.None? then Failed(NotFound)
      else
        var r := current.value;
        var evidenceSession :=
          if Given(session) then Some(session.s) else if r.session.Some? then Some(r.session.value.id) else None;
        if r.project != project.s || (Given(contract) && r.contract != contract.s)
           || (evidenceSession.Some? && !RecordingOwned(evidence, r.project, evidenceSession.value))
        then Failed(Mismatch)
        else if r.status.Released? then if r.evidence == Some(evidence) then Kept(r) else Failed(Conflict)
        else if !SessionFits(r, session, endpoint) then Failed(Mismatch)
        else Written(r.(status := Released, evidence := Some(evidence)))
  }

  /** The effect of one call on what the state file holds; None when there is no file. */
  function Transition(op: Op, file: Option<Json>): Outcome {
    var call := InOrder(op);
    if ArgumentError(call).Some? then Failed(ArgumentError(call).value)
    else if file.Some? && Canonical(file.value).None? then Failed(InvalidState)
    else OnRecord(call, Held(file))
  }

  // The record of a file that can be read.
  function Held(file: Option<Json>): Option<Record> {
    if file.None? then None else Canonical(file.value)
  }

  function After(file: Option<Json>, outcome: Outcome): Option<Json> {
    if outcome.Written? then Some(Encode(outcome.record)) else file
  }

  // ---------- every write is valid ----------

  lemma HeldIsValid(file: Option<Json>)
    requires Held(file).Some?
    ensures ValidRecord(Held(file).value)
  {
    CanonicalIsValid(file.value);
  }

  lemma ServerOwned(server: Json, project: string, session: string)
    ensures IsEndpoint(Obj(map[Server := server])) && EndpointOwned(Obj(map[Server := server]), project, session)
  {
    var m := map[Server := server];
    assert Server in m;
    assert Values(m, PROJECT_NAMES) == {} && Values(m, SESSION_NAMES) == {};
  }

  lemma OnRecordIsValid(op: Op, current: Option<Record>)
    requires ArgumentError(op).None? && (current.Some? ==> ValidRecord(current.value))
    ensures !OnRecord(op, current).Failed? ==> ValidRecord(OnRecord(op, current).record)
  {
    if op.Recover? {
      ServerOwned(op.server, op.project.s, op.next.s);
    }
  }

  /** Whatever a call returns is a valid record; what it writes passes the validation that precedes every write,
      and the next call reads the same record back. */
  lemma WritesReadBack(op: Op, file: Option<Json>)
    ensures var outcome := Transition(op, file);
            !outcome.Failed? ==> ValidRecord(outcome.record) && Held(After(file, outcome)) == Some(outcome.record)
  {
    hide ValidRecord, Canonical, ArgumentError, Encode;
    if Held(file).Some? {
      HeldIsValid(file);
    }
    if ArgumentError(InOrder(op)).None? {
      OnRecordIsValid(InOrder(op), Held(file));
    }
    var outcome := Transition(op, file);
    if !outcome.Failed? {
      ReadsBack(outcome.record);
    }
  }

  lemma RepeatOnRecord(op: Op, current: Option<Record>)
    requires ArgumentError(op).None? && !OnRecord(op, current).Failed?
    ensures var r := OnRecord(op, current).record;
            OnRecord(op, Some(r)) == if op.Recover? then Failed(Mismatch) else Kept(r)
  {
  }

  /** Repeating a successful call is harmless: it returns the same record and writes nothing. Only a recovery
      cannot be repeated, as the session it replaced is no longer the bound one. */
  lemma Replay(op: Op, file: Option<Json>)
    requires !Transition(op, file).Failed?
    ensures var outcome := Transition(op, file);
            Transition(op, After(file, outcome)) == if op.Recover? then Failed(Mismatch) else Kept(outcome.record)
  {
    WritesReadBack(op, file);
    RepeatOnRecord(InOrder(op), Held(file));
  }

  /** Release means the same with contract and evidence in either order, unless both are strings. */
  lemma EitherOrder(project: Json, contract: Json, evidence: Json, session: Json, endpoint: Json, file: Option<Json>)
    requires contract.Str? && !evidence.Str? && Given(evidence)
    ensures Transition(Release(project, contract, evidence, session, endpoint), file) ==
            Transition(Release(project, evidence, contract, session, endpoint), file)
  {
    assert InOrder(Release(project, contract, evidence, session, endpoint)) ==
             Release(project, evidence, contract, session, endpoint);
  }

  // ---------- the object ----------

  /** The owner of the state file. Each call runs under the admission lock from its read to its write. */
  class AdmissionStore {
    var file: Option<Json>

    constructor (found: Option<Json>)
      ensures file == found
    {
      file := found;
    }

    /** Writes a state in its canonical form, or refuses it. */
    method WriteState(state: Json) returns (ok: bool)
      modifies this
      ensures ok <==> Canonical(state).Some?
      ensures file == if ok then Some(Encode(Canonical(state).value)) else old(file)
    {
      var canonical := Canonical(state);
      ok := canonical.Some?;
      if ok {
        file := Some(Encode(canonical.value));
      }
    }

    // Writes the record and returns it.
    method Replace(r: Record) returns (outcome: Outcome)
      modifies this
      ensures ValidRecord(r) ==> outcome == Written(r) && file == Some(Encode(r))
    {
      if ValidRecord(r) {
        ReadsBack(r);
      }
      var ok := WriteState(Encode(r));
      outcome := if ok then Written(r) else Failed(InvalidState);
    }

    method Admit(project: Json, contract: Json, session: Json, endpoint: Json) returns (outcome: Outcome)
      modifies this
      ensures outcome == Transition(Op.Admit(project, contract, session, endpoint), old(file))
      ensures file == After(old(file), outcome)
    {
      WritesReadBack(Op.Admit(project, contract, session, endpoint), file);
      if !IsText(project) || !IsText(contract) || Given(session) != Given(endpoint) {
        return Failed(InvalidArgument);
      }
      if Given(session) && (!IsText(session) || !IsEndpoint(endpoint)) {
        return Failed(InvalidArgument);
      }
      if Given(endpoint) && !EndpointOwned(endpoint, project.s, session.s) {
        return Failed(Mismatch);
      }
      var current := Held(file);
      if file.Some? && current.None? {
        return Failed(InvalidState);
      }
      if current.Some? && current.value.status != Released {
        if current.value.project != project.s || current.value.contract != contract.s {
          return Failed(Conflict);
        }
        if Given(session) {
          if !SessionFits(current.value, session, endpoint) {
            return Failed(Mismatch);
          }
          if current.value.session.None? {
            outcome := Replace(current.value.(session := Some(Binding(session.s, endpoint, None))));
            return;
          }
        }
        return Kept(current.value);
      }
      var bound := if Given(session) then Some(Binding(session.s, endpoint, None)) else None;
      outcome := Replace(Record(Active, project.s, contract.s, bound, None));
    }

    method BindEndpoint(project: Json, session: Json, endpoint: Json, contract: Json) returns (outcome: Outcome)
      modifies this
      ensures outcome == Transition(Bind(project, session, endpoint, contract), old(file))
      ensures file == After(old(file), outcome)
    {
      WritesReadBack(Bind(project, session, endpoint, contract), file);
      if !IsText(project) || !IsText(session) || (Given(contract) && !IsText(contract)) || !IsEndpoint(endpoint) {
        return Failed(InvalidArgument);
      }
      if !EndpointOwned(endpoint, project.s, session.s) {
        return Failed(Mismatch);
      }
      var current := Held(file);
      if file.Some? && current.None? {
        return Failed(InvalidState);
      }
      if current.None? || current.value.status.Released? {
        return Failed(NotFound);
      }
      if current.value.project != project.s {
        return Failed(Conflict);
      }
      if (Given(contract) && current.value.contract != contract.s) || !SessionFits(current.value, session, endpoint) {
        return Failed(Mismatch);
      }
      if current.value.session.None? {
        outcome := Replace(current.value.(session := Some(Binding(session.s, endpoint, None))));
        return;
      }
      return Kept(current.value);
    }

    method ResumeSession(project: Json, contract: Json, server: Json, previous: Json, next: Json, recording: Json)
        returns (outcome: Outcome)
      modifies this
      ensures outcome == Transition(Recover(project, contract, server, previous, next, recording), old(file))
      ensures file == After(old(file), outcome)
    {
      WritesReadBack(Recover(project, contract, server, previous, next, recording), file);
      if !IsText(project) || !IsText(contract) || !IsText(server) || !IsText(previous) || !IsText(next) {
        return Failed(InvalidArgument);
      }
      if previous.s == next.s {
        return Failed(Mismatch);
      }
      if !IsEvidence(recording) {
        return Failed(InvalidArgument);
      }
      if !RecordingOwned(recording, project.s, previous.s) {
        return Failed(Mismatch);
      }
      var current := Held(file);
      if file.Some? && current.None? {
        return Failed(InvalidState);
      }
      if current.None? || current.value.status.Released? {
        return Failed(NotFound);
      }
      var r := current.value;
      if r.project != project.s || r.contract != contract.s || r.session.None? || r.session.value.id != previous.s {
        return Failed(Mismatch);
      }
      if ServerOf(r.session.value.endpoint) != Some(server.s) {
        return Failed(Mismatch);
      }
      var replacement := Binding(next.s, Obj(map[Server := server]), Some(Recovery(previous.s, recording)));
      outcome := Replace(r.(session := Some(replacement)));
    }

    method Release(project: Json, terminalEvidence: Json, contractRevision: Json, session: Json, endpoint: Json)
        returns (outcome: Outcome)
      modifies this
      ensures outcome == Transition(Op.Release(project, terminalEvidence, contractRevision, session, endpoint),
                                    old(file))
      ensures file == After(old(file), outcome)
    {
      WritesReadBack(Op.Release(project, terminalEvidence, contractRevision, session, endpoint), file);
      var evidence, contract := terminalEvidence, contractRevision;
      if Given(evidence) && !contract.Str? && Given(contract) {
        evidence, contract := contract, evidence;
      }
      if !IsText(project) || (Given(contract) && !IsText(contract)) || (Given(session) && !IsText(session)) {
        return Failed(InvalidArgument);
      }
      if (Given(endpoint) && (!IsEndpoint(endpoint) || !Given(session))) || !IsEvidence(evidence) {
        return Failed(InvalidArgument);
      }
      var current := Held(file);
      if file.Some? && current.None? {
        return Failed(InvalidState);
      }
      if current.None? {
        return Failed(NotFound);
      }
      var r := current.value;
      if r.project != project.s || (Given(contract) && r.contract != contract.s) {
        return Failed(Mismatch);
      }
      var evidenceSession := if Given(session) then Some(session.s) else None;
      if evidenceSession.None? && r.session.Some? {
        evidenceSession := Some(r.session.value.id);
      }
      if evidenceSession.Some? && !RecordingOwned(evidence, r.project, evidenceSession.value) {
        return Failed(Mismatch);
      }
      if r.status.Released? {
        return if r.evidence == Some(evidence) then Kept(r) else Failed(Conflict);
      }
      if !SessionFits(r, session, endpoint) {
        return Failed(Mismatch);
      }
      outcome := Replace(r.(status := Released, evidence := Some(evidence)));
    }
  }
}
