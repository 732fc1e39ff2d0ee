/** Who may do what to an admission: for each call the exact condition under which it succeeds, and what it does
    then, said of its arguments and the record alone. */
module AdmissionRights {
  import opened Options
  import opened PythonText
  import opened AdmissionRecord
  import opened ProjectAdmission

  // ---------- values ----------

  // v says the value of the owner under the name, itself or in its identity.
  ghost predicate Says(v: Json, name: Key, value: Json) {
    && v.Obj?
    && (|| (name in v.m && v.m[name] == value)
        || (&& Identity in v.m && v.m[Identity].Obj?
            && name in v.m[Identity].m && v.m[Identity].m[name] == value))
  }

  // Whatever v says under the names is this owner, or it says nothing but null.
  ghost predicate NamesNoOther(v: Json, names: set<Key>, owner: string) {
    || (forall name, value :: name in names && Says(v, name, value) ==> value == Str(owner))
    || (forall name, value :: name in names && Says(v, name, value) ==> value == Null)
  }

  lemma OwnedMeans(v: Json, names: set<Key>, owner: string)
    ensures Owned(v, names, owner) <==> NamesNoOther(v, names, owner)
  {
    SaysOnly(v, names, Str(owner));
    SaysOnly(v, names, Null);
  }

  lemma SaysOnly(v: Json, names: set<Key>, only: Json)
    ensures Said(v, names) <= {only} <==> forall name, value :: name in names && Says(v, name, value) ==> value == only
  {
    forall name, value | name in names && Says(v, name, value) ensures value in Said(v, names) {
      SaidIsListed(v, names, name, value);
    }
    forall value | value in Said(v, names) ensures exists name :: name in names && Says(v, name, value) {
      SaidUnderName(v, names, value);
    }
    hide Said, Says;
    if forall name, value :: name in names && Says(v, name, value) ==> value == only {
      forall value | value in Said(v, names) ensures value == only {
        var name :| name in names && Says(v, name, value);
      }
    }
  }

  lemma SaidUnderName(v: Json, names: set<Key>, value: Json)
    requires value in Said(v, names)
    ensures exists name :: name in names && Says(v, name, value)
  {
    if value in Values(v.m, names) {
      var name :| name in names && name in v.m && v.m[name] == value;
      assert Says(v, name, value);
    } else {
      var identity := v.m[Identity].m;
      var name :| name in names && name in identity && identity[name] == value;
      assert Says(v, name, value);
    }
  }

  lemma SaidIsListed(v: Json, names: set<Key>, name: Key, value: Json)
    requires name in names && Says(v, name, value)
    ensures value in Said(v, names)
  {
    if name in v.m && v.m[name] == value {
      assert value in Values(v.m, names);
    } else {
      assert value in Values(v.m[Identity].m, names);
    }
  }

  ghost predicate NoOtherProject(v: Json, project: string) {
    NamesNoOther(v, {ProjectId, ProjectID, Project}, project)
  }

  ghost predicate NoOtherSession(v: Json, session: string) {
    NamesNoOther(v, {SessionId, SessionID, SessionIdCamel}, session)
  }

  // Evidence names a session as its own or as its source.
  ghost predicate NoOtherSource(v: Json, session: string) {
    NamesNoOther(v, {SourceSessionId, SourceSessionID, SessionId, SessionID, SessionIdCamel}, session)
  }

  lemma EndpointOwnedMeans(v: Json, project: string, session: string)
    ensures EndpointOwned(v, project, session) <==> NoOtherProject(v, project) && NoOtherSession(v, session)
  {
    OwnedMeans(v, PROJECT_NAMES, project);
    OwnedMeans(v, SESSION_NAMES, session);
  }

  lemma RecordingOwnedMeans(v: Json, project: string, session: string)
    ensures RecordingOwned(v, project, session) <==> NoOtherProject(v, project) && NoOtherSource(v, session)
  {
    OwnedMeans(v, PROJECT_NAMES, project);
    OwnedMeans(v, SOURCE_SESSION_NAMES, session);
  }

  // A string that is not empty, with neither white space around it nor a NUL in it.
  ghost predicate Clean(v: Json) {
    v.Str? && v.s != "" && '\0' !in v.s && !IsSpace(v.s[0]) && !IsSpace(v.s[|v.s| - 1])
  }

  lemma {:induction false} StripShortens(s: string)
    ensures |Strip(s)| <= |s|
    decreases |s|
  {
    if s == "" {
    } else if IsSpace(s[0]) {
      StripShortens(s[1..]);
    } else if IsSpace(s[|s| - 1]) {
      StripShortens(s[..|s| - 1]);
    }
  }

  lemma TextMeans(v: Json)
    ensures IsText(v) <==> Clean(v)
  {
    if IsId(v) {
      if IsSpace(v.s[0]) {
        StripShortens(v.s[1..]);
      } else if IsSpace(v.s[|v.s| - 1]) {
        StripShortens(v.s[..|v.s| - 1]);
      }
    }
  }

  // A bare server is as good as an object that names it.
  ghost predicate IsServer(endpoint: Json, server: string) {
    endpoint == Str(server) || (endpoint.Obj? && Server in endpoint.m && endpoint.m[Server] == Str(server))
  }

  ghost predicate IsAddress(v: Json) {
    Clean(v) || (v.Obj? && v.m != map[])
  }

  // Neither null nor false, zero or empty.
  ghost predicate Substantial(v: Json) {
    v !in {Null, Bool(false), Num(0.0), Str(""), Arr([]), Obj(map[])}
  }

  // ---------- reading a record ----------

  // The value stands under at least one of the names, and under each of them that is there.
  ghost predicate Spelled(m: map<Key, Json>, names: set<Key>, value: Json) {
    (exists name :: name in names && name in m) && forall name :: name in names && name in m ==> m[name] == value
  }

  ghost predicate Missing(m: map<Key, Json>, names: set<Key>) {
    forall name :: name in names ==> name !in m
  }

  // A name that can be stored: it need not be trimmed.
  ghost predicate IsName(s: string) {
    s != "" && '\0' !in s
  }

  // The first spelling of a recovery's parts counts.
  ghost predicate RecoverySays(raw: Json, project: string, r: Recovery) {
    && raw.Obj? && IsName(r.previous) && Substantial(r.recording)
    && (if PreviousSessionId in raw.m then raw.m[PreviousSessionId] == Str(r.previous)
        else PreviousSessionID in raw.m && raw.m[PreviousSessionID] == Str(r.previous))
    && (if RecordingEvidence in raw.m then raw.m[RecordingEvidence] == r.recording
        else RecordingEvidenceCamel in raw.m && raw.m[RecordingEvidenceCamel] == r.recording)
    && NoOtherProject(r.recording, project) && NoOtherSource(r.recording, r.previous)
  }

  ghost predicate BindingSays(raw: Json, project: string, b: Binding) {
    && raw.Obj? && raw.m.Keys <= {Id, SessionId, SessionID, SessionIdCamel, Endpoint, Resume}
    && Spelled(raw.m, {Id, SessionId, SessionID, SessionIdCamel}, Str(b.id)) && IsName(b.id)
    && Endpoint in raw.m && raw.m[Endpoint] == b.endpoint && IsAddress(b.endpoint)
    && NoOtherProject(b.endpoint, project) && NoOtherSession(b.endpoint, b.id)
    && (if Resume in raw.m then b.recovery.Some? && RecoverySays(raw.m[Resume], project, b.recovery.value)
        else b.recovery.None?)
  }

  ghost predicate StatusSays(m: map<Key, Json>, status: RecordStatus) {
    match status
    case Active => Status !in m || m[Status] == Str("active")
    case Blocked => Status in m && m[Status] == Str("blocked")
    case Released => Status in m && m[Status] == Str("released")
  }

  ghost predicate EvidenceSays(m: map<Key, Json>, r: Record) {
    if r.status.Released? then
      && r.evidence.Some? && Substantial(r.evidence.value)
      && Spelled(m, {ReleaseEvidence, ReleaseEvidenceCamel, TerminalEvidence, TerminalEvidenceCamel}, r.evidence.value)
    else
      && r.evidence.None?
      && Missing(m, {ReleaseEvidence, ReleaseEvidenceCamel, TerminalEvidence, TerminalEvidenceCamel})
  }

  // No session, null, or a binding.
  ghost predicate SessionSays(m: map<Key, Json>, r: Record) {
    if Session in m && m[Session] != Null then r.session.Some? && BindingSays(m[Session], r.project, r.session.value)
    else r.session.None?
  }

  // The decoded file says this record, in whatever spellings.
  ghost predicate RecordSays(raw: Json, r: Record) {
    && raw.Obj?
    && raw.m.Keys <= {Schema, Version, Status, Session, ProjectId, ProjectID, ContractRevision, ContractRevisionCamel,
                      ReleaseEvidence, ReleaseEvidenceCamel, TerminalEvidence, TerminalEvidenceCamel}
    && (Schema in raw.m ==> raw.m[Schema] == Str("factory.project-admission.v1"))
    && (Version in raw.m ==> raw.m[Version] == Num(1.0))
    && Spelled(raw.m, {ProjectId, ProjectID}, Str(r.project)) && IsName(r.project)
    && Spelled(raw.m, {ContractRevision, ContractRevisionCamel}, Str(r.contract)) && IsName(r.contract)
    && StatusSays(raw.m, r.status) && EvidenceSays(raw.m, r) && SessionSays(raw.m, r)
  }

  // The names, first to last, are those of the set.
  ghost predicate Lists(names: seq<Key>, all: set<Key>) {
    forall name :: name in names <==> name in all
  }

  lemma {:induction false} FirstFound(m: map<Key, Json>, names: seq<Key>)
    ensures First(m, names).Some? <==> exists name :: name in names && name in m
    ensures First(m, names).Some? ==> exists name :: name in names && name in m && m[name] == First(m, names).value
  {
    if names == [] {
    } else {
      FirstFound(m, names[1..]);
      assert forall name :: name in names <==> name == names[0] || name in names[1..];
    }
  }

  lemma SpelledMeans(m: map<Key, Json>, names: seq<Key>, all: set<Key>, value: Json)
    requires Lists(names, all)
    ensures Spelled(m, all, value) <==> Agree(m, names) && First(m, names) == Some(value)
  {
    FirstFound(m, names);
  }

  lemma MissingMeans(m: map<Key, Json>, names: seq<Key>, all: set<Key>)
    requires Lists(names, all)
    ensures Missing(m, all) <==> First(m, names).None?
  {
    FirstFound(m, names);
  }

  lemma IdMeans(m: map<Key, Json>, names: seq<Key>, all: set<Key>, id: string)
    requires Lists(names, all)
    ensures IdIn(m, names) == Some(id) <==> Spelled(m, all, Str(id)) && IsName(id)
  {
    SpelledMeans(m, names, all, Str(id));
  }

  lemma RecoveryMeans(raw: Json, project: string, r: Recovery)
    ensures CanonicalRecovery(raw, project) == Some(r) <==> RecoverySays(raw, project, r)
  {
    if raw.Obj? {
      FirstOfTwo(raw.m, PreviousSessionId, PreviousSessionID);
      FirstOfTwo(raw.m, RecordingEvidence, RecordingEvidenceCamel);
      RecordingOwnedMeans(r.recording, project, r.previous);
    }
    hide First, RecordingOwned, NoOtherProject, NoOtherSource;
  }

  lemma FirstOfTwo(m: map<Key, Json>, a: Key, b: Key)
    ensures First(m, [a, b]) == if a in m then Some(m[a]) else if b in m then Some(m[b]) else None
  {
    assert [a, b][1..] == [b];
    assert First(m, [b]) == if b in m then Some(m[b]) else None;
  }

  lemma BindingMeans(raw: Json, project: string, b: Binding)
    ensures CanonicalBinding(raw, project) == Some(b) <==> BindingSays(raw, project, b)
  {
    if raw.Obj? {
      IdMeans(raw.m, ID_ALIASES, {Id, SessionId, SessionID, SessionIdCamel}, b.id);
      TextMeans(b.endpoint);
      EndpointOwnedMeans(b.endpoint, project, b.id);
      if Resume in raw.m && b.recovery.Some? {
        RecoveryMeans(raw.m[Resume], project, b.recovery.value);
      }
    }
    hide IdIn, EndpointOwned, NoOtherProject, NoOtherSession, CanonicalRecovery, RecoverySays, Spelled, Clean, IsText;
  }

  lemma EvidenceMeans(m: map<Key, Json>, r: Record)
    ensures EvidenceSays(m, r) <==>
            && Agree(m, EVIDENCE_ALIASES) && First(m, EVIDENCE_ALIASES) == r.evidence
            && (r.status.Released? <==> r.evidence.Some?) && (r.evidence.Some? ==> IsEvidence(r.evidence.value))
  {
    var all := {ReleaseEvidence, ReleaseEvidenceCamel, TerminalEvidence, TerminalEvidenceCamel};
    MissingMeans(m, EVIDENCE_ALIASES, all);
    if r.evidence.Some? {
      SpelledMeans(m, EVIDENCE_ALIASES, all, r.evidence.value);
    }
    hide First, Spelled;
  }

  lemma StatusMeans(m: map<Key, Json>, status: RecordStatus)
    ensures ParseStatus(m) == Some(status) <==> StatusSays(m, status)
  {
  }

  lemma SessionMeans(m: map<Key, Json>, r: Record)
    ensures (if Session in m && m[Session] != Null then
               r.session.Some? && CanonicalBinding(m[Session], r.project) == r.session
             else r.session.None?) <==> SessionSays(m, r)
  {
    if Session in m && r.session.Some? {
      BindingMeans(m[Session], r.project, r.session.value);
    }
    hide CanonicalBinding, BindingSays;
  }

  /** A file can be read exactly as the record that it says: every spelling that is there has to say the same, nothing
      else may be there, and nothing in it may name another owner. */
  lemma CanonicalMeans(raw: Json, r: Record)
    ensures Canonical(raw) == Some(r) <==> RecordSays(raw, r)
  {
    if raw.Obj? {
      IdMeans(raw.m, PROJECT_ALIASES, {ProjectId, ProjectID}, r.project);
      IdMeans(raw.m, CONTRACT_ALIASES, {ContractRevision, ContractRevisionCamel}, r.contract);
      EvidenceMeans(raw.m, r);
      StatusMeans(raw.m, r.status);
      SessionMeans(raw.m, r);
    }
    hide IdIn, First, Agree, Spelled, EvidenceSays, CanonicalBinding, SessionSays, StatusSays, ParseStatus, IsEvidence;
  }

  // ---------- the record ----------

  // The file can be read, and an admission is under way.
  ghost predicate UnderWay(file: Option<Json>) {
    Held(file).Some? && Held(file).value.status != Released
  }

  ghost predicate Readable(file: Option<Json>) {
    file.Some? ==> Held(file).Some?
  }

  // A session and an endpoint, or neither, that belong to the project.
  ghost predicate NewSession(project: string, session: Json, endpoint: Json) {
    || (session.Null? && endpoint.Null?)
    || (Clean(session) && IsAddress(endpoint) && NoOtherProject(endpoint, project)
        && NoOtherSession(endpoint, session.s))
  }

  // What is given of a session and an endpoint is what the record has bound.
  ghost predicate SameSession(b: Binding, session: Json, endpoint: Json) {
    && (session.Null? || session == Str(b.id))
    && (endpoint.Null? || endpoint == b.endpoint || (endpoint.Str? && IsServer(b.endpoint, endpoint.s)))
  }

  ghost predicate Agrees(r: Record, session: Json, endpoint: Json) {
    if r.session.Some? then SameSession(r.session.value, session, endpoint)
    else NewSession(r.project, session, endpoint)
  }

  lemma FitsMeans(r: Record, session: Json, endpoint: Json)
    requires IsOptionalText(session) && (Given(endpoint) ==> IsEndpoint(endpoint))
    ensures SessionFits(r, session, endpoint) <==> Agrees(r, session, endpoint)
  {
    TextMeans(session);
    TextMeans(endpoint);
    if r.session.None? && Given(session) {
      EndpointOwnedMeans(endpoint, r.project, session.s);
    }
  }

  // ---------- who may ----------

  ghost predicate MayAdmit(file: Option<Json>, project: Json, contract: Json, session: Json, endpoint: Json) {
    && Clean(project) && Clean(contract) && NewSession(project.s, session, endpoint) && Readable(file)
    && (UnderWay(file) ==>
        && project == Str(Held(file).value.project) && contract == Str(Held(file).value.contract)
        && Agrees(Held(file).value, session, endpoint))
  }

  /** An admission begins on a free record, with exactly what the call says; otherwise only the owner is admitted
      again, and may add the session that is missing. */
  lemma AdmitIff(file: Option<Json>, project: Json, contract: Json, session: Json, endpoint: Json)
    ensures var outcome := Transition(Admit(project, contract, session, endpoint), file);
            && (!outcome.Failed? <==> MayAdmit(file, project, contract, session, endpoint))
            && (!outcome.Failed? ==>
                var bound := if session.Null? then None else Some(Binding(session.s, endpoint, None));
                if !UnderWay(file) then outcome == Written(Record(Active, project.s, contract.s, bound, None))
                else if bound.Some? && Held(file).value.session.None? then
                  outcome == Written(Held(file).value.(session := bound))
                else outcome == Kept(Held(file).value))
  {
    TextMeans(project);
    TextMeans(contract);
    TextMeans(session);
    TextMeans(endpoint);
    if IsText(project) && IsText(session) {
      EndpointOwnedMeans(endpoint, project.s, session.s);
    }
    if UnderWay(file) && IsOptionalText(session) && (Given(endpoint) ==> IsEndpoint(endpoint)) {
      FitsMeans(Held(file).value, session, endpoint);
    }
    hide Clean, IsText, IsEndpoint, NewSession, EndpointOwned, Agrees, SessionFits, Canonical;
  }

  ghost predicate MayBind(file: Option<Json>, project: Json, session: Json, endpoint: Json, contract: Json) {
    && Clean(project) && Clean(session) && IsAddress(endpoint) && UnderWay(file)
    && NoOtherProject(endpoint, project.s) && NoOtherSession(endpoint, session.s)
    && project == Str(Held(file).value.project)
    && (contract.Null? || (Clean(contract) && contract == Str(Held(file).value.contract)))
    && Agrees(Held(file).value, session, endpoint)
  }

  /** A binding is made or confirmed for the project that is admitted, under its contract if the call names one, and
      never in place of another session. */
  lemma BindIff(file: Option<Json>, project: Json, session: Json, endpoint: Json, contract: Json)
    ensures var outcome := Transition(Bind(project, session, endpoint, contract), file);
            && (!outcome.Failed? <==> MayBind(file, project, session, endpoint, contract))
            && (!outcome.Failed? ==>
                var r := Held(file).value;
                outcome == if r.session.Some? then Kept(r)
                           else Written(r.(session := Some(Binding(session.s, endpoint, None)))))
  {
    TextMeans(project);
    TextMeans(contract);
    TextMeans(session);
    TextMeans(endpoint);
    if IsText(project) && IsText(session) && IsEndpoint(endpoint) {
      EndpointOwnedMeans(endpoint, project.s, session.s);
      if UnderWay(file) {
        FitsMeans(Held(file).value, session, endpoint);
      }
    }
    hide Clean, IsText, IsEndpoint, EndpointOwned, Agrees, SessionFits, Canonical;
  }

  ghost predicate MayRecover(file: Option<Json>, project: Json, contract: Json, server: Json, previous: Json,
                             next: Json, recording: Json)
  {
    && Clean(project) && Clean(contract) && Clean(server) && Clean(previous) && Clean(next) && next != previous
    && Substantial(recording) && NoOtherProject(recording, project.s) && NoOtherSource(recording, previous.s)
    && UnderWay(file)
    && project == Str(Held(file).value.project) && contract == Str(Held(file).value.contract)
    && Held(file).value.session.Some?
    && previous == Str(Held(file).value.session.value.id) && IsServer(Held(file).value.session.value.endpoint, server.s)
  }

  /** A session is replaced only for the project, the contract, the server and the session that are recorded, on
      evidence that names no others; the new session is bound to the same server. */
  lemma RecoverIff(file: Option<Json>, project: Json, contract: Json, server: Json, previous: Json, next: Json,
                   recording: Json)
    ensures var outcome := Transition(Recover(project, contract, server, previous, next, recording), file);
            && (!outcome.Failed? <==> MayRecover(file, project, contract, server, previous, next, recording))
            && (!outcome.Failed? ==>
                var r := Held(file).value;
                outcome == Written(r.(session := Some(Binding(next.s, Obj(map[Server := server]),
                                                              Some(Recovery(previous.s, recording)))))))
  {
    TextMeans(project);
    TextMeans(contract);
    TextMeans(server);
    TextMeans(previous);
    TextMeans(next);
    if IsText(project) && IsText(previous) {
      RecordingOwnedMeans(recording, project.s, previous.s);
    }
    hide Clean, IsText, RecordingOwned, Canonical, NoOtherProject, NoOtherSource;
  }

  // The session that the evidence of a release has to be about, if there is one: the one given, or the bound one.
  ghost predicate Concerned(r: Record, session: Json, id: string) {
    session == Str(id) || (session.Null? && r.session.Some? && r.session.value.id == id)
  }

  // The evidence and the contract of a release: as they are given, or in the other order.
  ghost predicate Meant(second: Json, third: Json, evidence: Json, contract: Json) {
    if second.Null? || third.Null? || third.Str? then evidence == second && contract == third
    else evidence == third && contract == second
  }

  ghost predicate MayRelease(r: Record, project: Json, evidence: Json, contract: Json, session: Json, endpoint: Json) {
    && project == Str(r.project) && (contract.Null? || contract == Str(r.contract))
    && (forall id :: Concerned(r, session, id) ==> NoOtherProject(evidence, r.project) && NoOtherSource(evidence, id))
    && (r.status != Released ==> Agrees(r, session, endpoint))
    && (r.status == Released ==> r.evidence == Some(evidence))
  }

  ghost predicate IsReleaseCall(project: Json, evidence: Json, contract: Json, session: Json, endpoint: Json) {
    && Clean(project) && (contract.Null? || Clean(contract)) && (session.Null? || Clean(session))
    && (endpoint.Null? || (IsAddress(endpoint) && !session.Null?)) && Substantial(evidence)
  }

  /** A record is released only by a call that names its project, its contract and session if any, and evidence that
      names no other owner; the same evidence may be given again. */
  lemma ReleaseIff(file: Option<Json>, project: Json, second: Json, third: Json, session: Json, endpoint: Json,
                   evidence: Json, contract: Json)
    requires Meant(second, third, evidence, contract)
    ensures var outcome := Transition(Release(project, second, third, session, endpoint), file);
            && (!outcome.Failed? <==>
                && IsReleaseCall(project, evidence, contract, session, endpoint) && Held(file).Some?
                && MayRelease(Held(file).value, project, evidence, contract, session, endpoint))
            && (!outcome.Failed? ==>
                var r := Held(file).value;
                outcome == if r.status == Released then Kept(r)
                           else Written(r.(status := Released, evidence := Some(evidence))))
  {
    var call := Release(project, evidence, contract, session, endpoint);
    assert InOrder(Release(project, second, third, session, endpoint)) == call;
    TextMeans(project);
    TextMeans(contract);
    TextMeans(session);
    TextMeans(endpoint);
    if ArgumentError(call).None? && Held(file).Some? {
      ReleaseOnRecord(Held(file).value, call);
    }
    hide Clean, IsText, IsEndpoint, RecordingOwned, Canonical, MayRelease, OnRecord;
  }

  lemma ReleaseOnRecord(r: Record, call: Op)
    requires call.Release? && ArgumentError(call).None?
    ensures var outcome := OnRecord(call, Some(r));
            && (!outcome.Failed? <==>
                MayRelease(r, call.project, call.evidence, call.contract, call.session, call.endpoint))
            && (!outcome.Failed? ==>
                outcome == if r.status == Released then Kept(r)
                           else Written(r.(status := Released, evidence := Some(call.evidence))))
  {
    FitsMeans(r, call.session, call.endpoint);
    if Given(call.session) {
      RecordingOwnedMeans(call.evidence, r.project, call.session.s);
      assert Concerned(r, call.session, call.session.s);
    } else if r.session.Some? {
      RecordingOwnedMeans(call.evidence, r.project, r.session.value.id);
      assert Concerned(r, call.session, r.session.value.id);
    }
    hide RecordingOwned, NoOtherProject, NoOtherSource, Agrees, SessionFits;
  }

  // ---------- what a failure says ----------

  ghost predicate OwnedByOther(file: Option<Json>, project: Json, contract: Json) {
    UnderWay(file) && !(project == Str(Held(file).value.project) && contract == Str(Held(file).value.contract))
  }

  /** A call that fails changes nothing, and its error is true: an unreadable file, no admission to act on, an
      admission of someone else, or evidence that differs from what the release was made with. */
  lemma FailuresAreTrue(op: Op, file: Option<Json>)
    requires Transition(op, file).Failed?
    ensures After(file, Transition(op, file)) == file
    ensures Transition(op, file).error.InvalidState? ==> !Readable(file)
    ensures Transition(op, file).error.NotFound? ==>
              !UnderWay(file) && !op.Admit? && (op.Release? ==> file == None)
    ensures Transition(op, file).error.Conflict? ==>
              match op
              case Admit(project, contract, _, _) => OwnedByOther(file, project, contract)
              case Bind(project, _, _, _) => UnderWay(file) && project != Str(Held(file).value.project)
              case Recover(_, _, _, _, _, _) => false
              case Release(_, _, _, _, _) =>
                Held(file).Some? && Held(file).value.status == Released
                && Held(file).value.evidence != Some(InOrder(op).evidence)
  {
    hide Canonical, EndpointOwned, RecordingOwned, SessionFits;
  }
}
