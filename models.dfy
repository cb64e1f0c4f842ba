/** The verification data schema: the three string enumerations and the Pydantic
    records. Construction of a record is a function that either yields the record,
    with every omitted field at its default, or reports the fields that fail
    validation. */
module Models {
  import opened Wrappers

  // ---------------------------------------------------------------------------
  // Enumerations. Each member has a string value; `Parse...` is the by-value lookup
  // `DocumentType(s)`, which fails for a string that is no member's value.
  // ---------------------------------------------------------------------------

  datatype DocumentType =
    | Aadhaar | Pan | Passport | VoterId | DrivingLicense | UtilityBill
    | BankStatement | SalarySlip | Form16 | Itr | Photograph | Signature
    | ChequeLeaf | GstCertificate | IncorporationCertificate | Other

  function DocumentTypeValue(t: DocumentType): string {
    match t
    case Aadhaar => "Aadhaar"
    case Pan => "PAN"
    case Passport => "Passport"
    case VoterId => "VoterID"
    case DrivingLicense => "DrivingLicense"
    case UtilityBill => "Utility"
    case BankStatement => "BankStatement"
    case SalarySlip => "SalarySlip"
    case Form16 => "Form16"
    case Itr => "ITR"
    case Photograph => "Photograph"
    case Signature => "Signature"
    case ChequeLeaf => "ChequeLeaf"
    case GstCertificate => "GSTCertificate"
    case IncorporationCertificate => "IncorporationCertificate"
    case Other => "Other"
  }

  function ParseDocumentType(s: string): (r: Option<DocumentType>)
    ensures r.Some? ==> DocumentTypeValue(r.value) == s
  {
    match s
    case "Aadhaar" => Some(Aadhaar)
    case "PAN" => Some(Pan)
    case "Passport" => Some(Passport)
    case "VoterID" => Some(VoterId)
    case "DrivingLicense" => Some(DrivingLicense)
    case "Utility" => Some(UtilityBill)
    case "BankStatement" => Some(BankStatement)
    case "SalarySlip" => Some(SalarySlip)
    case "Form16" => Some(Form16)
    case "ITR" => Some(Itr)
    case "Photograph" => Some(Photograph)
    case "Signature" => Some(Signature)
    case "ChequeLeaf" => Some(ChequeLeaf)
    case "GSTCertificate" => Some(GstCertificate)
    case "IncorporationCertificate" => Some(IncorporationCertificate)
    case "Other" => Some(Other)
    case _ => None
  }

  /** The members in declaration order. */
  const AllDocumentTypes: seq<DocumentType> :=
    [Aadhaar, Pan, Passport, VoterId, DrivingLicense, UtilityBill, BankStatement,
     SalarySlip, Form16, Itr, Photograph, Signature, ChequeLeaf, GstCertificate,
     IncorporationCertificate, Other]

  /** Member to value to member is the identity. */
  lemma DocumentTypeRoundTrip(t: DocumentType)
    ensures ParseDocumentType(DocumentTypeValue(t)) == Some(t)
  {
  }

  /** The catalogue has exactly sixteen members, all listed, with distinct values. */
  lemma DocumentTypeCatalogue()
    ensures |AllDocumentTypes| == 16
    ensures forall t: DocumentType :: t in AllDocumentTypes
    ensures forall i, j :: 0 <= i < j < |AllDocumentTypes| ==>
      DocumentTypeValue(AllDocumentTypes[i]) != DocumentTypeValue(AllDocumentTypes[j])
  {
    forall t: DocumentType ensures t in AllDocumentTypes {
      match t {
        case Aadhaar => case Pan => case Passport => case VoterId => case DrivingLicense =>
        case UtilityBill => case BankStatement => case SalarySlip => case Form16 => case Itr =>
        case Photograph => case Signature => case ChequeLeaf => case GstCertificate =>
        case IncorporationCertificate => case Other =>
      }
    }
    forall i, j | 0 <= i < j < |AllDocumentTypes|
      ensures DocumentTypeValue(AllDocumentTypes[i]) != DocumentTypeValue(AllDocumentTypes[j])
    {
      DocumentTypeRoundTrip(AllDocumentTypes[i]);
      DocumentTypeRoundTrip(AllDocumentTypes[j]);
    }
  }

  datatype ConsistencyStatus = Match | Partial | Mismatch

  function ConsistencyStatusValue(c: ConsistencyStatus): string {
    match c
    case Match => "MATCH"
    case Partial => "PARTIAL"
    case Mismatch => "MISMATCH"
  }

  function ParseConsistencyStatus(s: string): (r: Option<ConsistencyStatus>)
    ensures r.Some? ==> ConsistencyStatusValue(r.value) == s
  {
    match s
    case "MATCH" => Some(Match)
    case "PARTIAL" => Some(Partial)
    case "MISMATCH" => Some(Mismatch)
    case _ => None
  }

  lemma ConsistencyStatusRoundTrip(c: ConsistencyStatus)
    ensures ParseConsistencyStatus(ConsistencyStatusValue(c)) == Some(c)
    ensures forall d: ConsistencyStatus :: d != c ==> ConsistencyStatusValue(d) != ConsistencyStatusValue(c)
  {
  }

  datatype Decision = Approved | ReviewRequired | Rejected

  function DecisionValue(d: Decision): string {
    match d
    case Approved => "APPROVED"
    case ReviewRequired => "REVIEW_REQUIRED"
    case Rejected => "REJECTED"
  }

  function ParseDecision(s: string): (r: Option<Decision>)
    ensures r.Some? ==> DecisionValue(r.value) == s
  {
    match s
    case "APPROVED" => Some(Approved)
    case "REVIEW_REQUIRED" => Some(ReviewRequired)
    case "REJECTED" => Some(Rejected)
    case _ => None
  }

  lemma DecisionRoundTrip(d: Decision)
    ensures ParseDecision(DecisionValue(d)) == Some(d)
    ensures forall e: Decision :: e != d ==> DecisionValue(e) != DecisionValue(d)
  {
  }

  // ---------------------------------------------------------------------------
  // Records.
  // ---------------------------------------------------------------------------

  /** A validation failure, naming the field that failed. */
  datatype FieldError =
    | OutOfRange(field: string, number: int)
    | NotAMember(field: string, text: string)

  /** Whether an integer field constrained to 0..100 accepts `n`. */
  predicate InPercentRange(n: int) { 0 <= n <= 100 }

  /** One entry of a purpose's checklist; `docType` is a plain string. */
  datatype RequiredDocument = RequiredDocument(docType: string, required: bool)

  /** A Python float, kept as its 64-bit pattern: the model does no arithmetic on it. */
  datatype Salary = Salary(bits: bv64)

  datatype ExtractedFields = ExtractedFields(
    name: Option<string>,
    dob: Option<string>,
    documentNumberMasked: Option<string>,
    address: Option<string>,
    fatherName: Option<string>,
    nationality: Option<string>,
    expiryDate: Option<string>,
    employerName: Option<string>,
    salary: Option<Salary>,
    financialYear: Option<string>,
    billDate: Option<string>)

  /** `ExtractedFields()`: every attribute takes its default, absent. */
  function NoExtractedFields(): (r: ExtractedFields)
    ensures r.name.None? && r.dob.None? && r.documentNumberMasked.None?
    ensures r.address.None? && r.fatherName.None? && r.nationality.None?
    ensures r.expiryDate.None? && r.employerName.None? && r.salary.None?
    ensures r.financialYear.None? && r.billDate.None?
  {
    ExtractedFields(None, None, None, None, None, None, None, None, None, None, None)
  }

  datatype DocumentUpload = DocumentUpload(
    uploadId: string,
    filename: string,
    detectedType: string,
    extractedFields: ExtractedFields,
    ocrTextSnippet: string,
    confidence: int,
    tamperFlag: bool,
    notes: seq<string>)

  predicate ValidDocumentUpload(u: DocumentUpload) {
    InPercentRange(u.confidence)
  }

  /** `DocumentUpload(...)`: `tamperFlag` and `notes` may be omitted (`None`); only the
      confidence is range-checked, and `detectedType` is any string. */
  function NewDocumentUpload(uploadId: string, filename: string, detectedType: string,
                             extractedFields: ExtractedFields, ocrTextSnippet: string,
                             confidence: int, tamperFlag: Option<bool>,
                             notes: Option<seq<string>>): (r: Result<DocumentUpload, seq<FieldError>>)
    ensures r.Success? <==> InPercentRange(confidence)
    ensures r.Failure? ==> r.error == [OutOfRange("confidence", confidence)]
    ensures r.Success? ==> ValidDocumentUpload(r.value)
    ensures r.Success? ==> r.value.tamperFlag == (tamperFlag == Some(true))
    ensures r.Success? ==> r.value.notes == (if notes.Some? then notes.value else [])
    ensures r.Success? ==> r.value.detectedType == detectedType && r.value.confidence == confidence
    ensures r.Success? ==>
      && r.value.uploadId == uploadId && r.value.filename == filename
      && r.value.extractedFields == extractedFields && r.value.ocrTextSnippet == ocrTextSnippet
  {
    if InPercentRange(confidence) then
      Success(DocumentUpload(uploadId, filename, detectedType, extractedFields, ocrTextSnippet,
                             confidence, tamperFlag.GetOr(false), notes.GetOr([])))
    else
      Failure([OutOfRange("confidence", confidence)])
  }

  datatype CrossChecks = CrossChecks(
    nameConsistency: ConsistencyStatus,
    dobConsistency: ConsistencyStatus,
    faceMatchScore: Option<int>)

  predicate ValidCrossChecks(c: CrossChecks) {
    c.faceMatchScore.Some? ==> InPercentRange(c.faceMatchScore.value)
  }

  /** `CrossChecks(...)`: the two statuses are given by value and must be members; the
      face score may be omitted and, when present, must lie in 0..100. Every failing
      field is reported, in declaration order. */
  function NewCrossChecks(nameConsistency: string, dobConsistency: string,
                          faceMatchScore: Option<int>): (r: Result<CrossChecks, seq<FieldError>>)
    ensures r.Success? <==>
      ParseConsistencyStatus(nameConsistency).Some?
      && ParseConsistencyStatus(dobConsistency).Some?
      && (faceMatchScore.Some? ==> InPercentRange(faceMatchScore.value))
    ensures r.Success? ==>
      && ValidCrossChecks(r.value)
      && ConsistencyStatusValue(r.value.nameConsistency) == nameConsistency
      && ConsistencyStatusValue(r.value.dobConsistency) == dobConsistency
      && r.value.faceMatchScore == faceMatchScore
    ensures r.Failure? ==>
      && (NotAMember("name_consistency", nameConsistency) in r.error
          <==> ParseConsistencyStatus(nameConsistency).None?)
      && (NotAMember("dob_consistency", dobConsistency) in r.error
          <==> ParseConsistencyStatus(dobConsistency).None?)
      && (faceMatchScore.Some? ==>
            (OutOfRange("face_match_score", faceMatchScore.value) in r.error
             <==> !InPercentRange(faceMatchScore.value)))
  {
    var name := ParseConsistencyStatus(nameConsistency);
    var dob := ParseConsistencyStatus(dobConsistency);
    var scoreOk := faceMatchScore.None? || InPercentRange(faceMatchScore.value);
    if name.Some? && dob.Some? && scoreOk then
      Success(CrossChecks(name.value, dob.value, faceMatchScore))
    else
      Failure((if name.None? then [NotAMember("name_consistency", nameConsistency)] else [])
              + (if dob.None? then [NotAMember("dob_consistency", dobConsistency)] else [])
              + (if scoreOk then [] else [OutOfRange("face_match_score", faceMatchScore.value)]))
  }

  datatype Audit = Audit(agentVersion: string, logs: seq<string>, consentReceived: bool)

  /** `Audit(...)`: `logs` defaults to the empty list; nothing is validated. */
  function NewAudit(agentVersion: string, logs: Option<seq<string>>, consentReceived: bool): (r: Audit)
    ensures logs.None? ==> r.logs == []
    ensures logs.Some? ==> r.logs == logs.value
    ensures r.agentVersion == agentVersion && r.consentReceived == consentReceived
  {
    Audit(agentVersion, logs.GetOr([]), consentReceived)
  }

  /** The full result. With enum values in use, `decision` is stored as the string
      value of a `Decision` member. */
  datatype VerificationResult = VerificationResult(
    requestId: string,
    timestamp: string,
    purpose: string,
    requiredDocuments: seq<RequiredDocument>,
    uploads: seq<DocumentUpload>,
    crossChecks: CrossChecks,
    decision: string,
    decisionReasons: seq<string>,
    nextActions: seq<string>,
    audit: Audit,
    escalateToHuman: bool,
    humanEscalationReason: Option<string>)

  predicate ValidVerificationResult(v: VerificationResult) {
    && ParseDecision(v.decision).Some?
    && ValidCrossChecks(v.crossChecks)
    && forall u :: u in v.uploads ==> ValidDocumentUpload(u)
  }

  /** `VerificationResult(...)`: the decision is given by value and must be a member;
      nested records are instances, accepted as built. Omitted lists default to empty,
      escalation to false and its reason to absent. */
  function NewVerificationResult(
    requestId: string, timestamp: string, purpose: string,
    requiredDocuments: seq<RequiredDocument>, uploads: Option<seq<DocumentUpload>>,
    crossChecks: CrossChecks, decision: string,
    decisionReasons: Option<seq<string>>, nextActions: Option<seq<string>>,
    audit: Audit, escalateToHuman: Option<bool>,
    humanEscalationReason: Option<string>): (r: Result<VerificationResult, seq<FieldError>>)
    ensures r.Success? <==> ParseDecision(decision).Some?
    ensures r.Failure? ==> r.error == [NotAMember("decision", decision)]
    ensures r.Success? ==> r.value.decision == decision
    ensures r.Success? ==>
      && r.value.requestId == requestId && r.value.timestamp == timestamp
      && r.value.purpose == purpose && r.value.requiredDocuments == requiredDocuments
      && r.value.crossChecks == crossChecks && r.value.audit == audit
    ensures r.Success? ==>
      && r.value.uploads == (if uploads.Some? then uploads.value else [])
      && r.value.decisionReasons == (if decisionReasons.Some? then decisionReasons.value else [])
      && r.value.nextActions == (if nextActions.Some? then nextActions.value else [])
      && r.value.escalateToHuman == (escalateToHuman == Some(true))
      && r.value.humanEscalationReason == humanEscalationReason
    ensures r.Success? && ValidCrossChecks(crossChecks)
            && (uploads.Some? ==> forall u :: u in uploads.value ==> ValidDocumentUpload(u))
            ==> ValidVerificationResult(r.value)
  {
    if ParseDecision(decision).Some? then
      Success(VerificationResult(requestId, timestamp, purpose, requiredDocuments,
                                 uploads.GetOr([]), crossChecks, decision,
                                 decisionReasons.GetOr([]), nextActions.GetOr([]), audit,
                                 escalateToHuman.GetOr(false), humanEscalationReason))
    else
      Failure([NotAMember("decision", decision)])
  }

  /** A `Decision` member given as the decision is accepted and serialised as its
      value, from which the member is recovered. */
  lemma DecisionStoredAsValue(
    d: Decision, requestId: string, timestamp: string, purpose: string,
    requiredDocuments: seq<RequiredDocument>, crossChecks: CrossChecks, audit: Audit)
    ensures var r := NewVerificationResult(requestId, timestamp, purpose, requiredDocuments,
                                           None, crossChecks, DecisionValue(d), None, None,
                                           audit, None, None);
            r.Success? && r.value.decision == DecisionValue(d)
            && ParseDecision(r.value.decision) == Some(d)
  {
    DecisionRoundTrip(d);
  }
}
