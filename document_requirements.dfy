/** Purpose to required-document resolution and purpose labels. The table is fixed:
    each known purpose maps to an ordered list of (document type value, mandatory)
    pairs, and an unknown purpose falls back to PAN and Aadhaar, both mandatory. The
    mandatory flags are exactly those of the table; no "one of" grouping exists. */
module DocumentRequirements {
  import opened Models
  import opened Wrappers
  import PyStr

  /** The purpose table `DOCUMENT_REQUIREMENTS`. */
  const Requirements: map<string, seq<(string, bool)>> := map[
    "account_opening_savings" := [
      ("PAN", true), ("Aadhaar", true), ("Photograph", true),
      ("Utility", false), ("BankStatement", false)],
    "account_opening_salary" := [
      ("PAN", true), ("Aadhaar", true), ("Photograph", true), ("SalarySlip", true),
      ("Utility", false), ("BankStatement", false)],
    "address_update" := [
      ("Aadhaar", false), ("PAN", false), ("Utility", false), ("BankStatement", false)],
    "loan_application" := [
      ("PAN", true), ("Aadhaar", true),
      ("SalarySlip", false), ("Form16", false), ("ITR", false)],
    "credit_card_kyc" := [
      ("PAN", true), ("Aadhaar", true), ("SalarySlip", false), ("Form16", false)],
    "business_account" := [
      ("PAN", true), ("GSTCertificate", true), ("IncorporationCertificate", true),
      ("Aadhaar", true)]
  ]

  /** The list returned for a purpose the table does not know. */
  const Fallback: seq<RequiredDocument> :=
    [RequiredDocument("PAN", true), RequiredDocument("Aadhaar", true)]

  /** The labels of the known purposes. */
  const DisplayNames: map<string, string> := map[
    "account_opening_savings" := "Open Savings Account",
    "account_opening_salary" := "Open Salary Account",
    "address_update" := "Update Address",
    "loan_application" := "Loan Application",
    "credit_card_kyc" := "Credit Card KYC",
    "business_account" := "Open Business Account"
  ]

  /** No document type occurs twice in the list. */
  predicate DistinctTypes(docs: seq<RequiredDocument>) {
    forall i, j :: 0 <= i < j < |docs| ==> docs[i].docType != docs[j].docType
  }

  /** Every type string is the value of a `DocumentType` member. */
  predicate AllCatalogued(docs: seq<RequiredDocument>) {
    forall i :: 0 <= i < |docs| ==> ParseDocumentType(docs[i].docType).Some?
  }

  /** The entries of the table as `RequiredDocument` records, one per pair. */
  function ToRequiredDocuments(entries: seq<(string, bool)>): (r: seq<RequiredDocument>)
    ensures |r| == |entries|
    ensures forall i :: 0 <= i < |r| ==> r[i].docType == entries[i].0 && r[i].required == entries[i].1
  {
    seq(|entries|, i requires 0 <= i < |entries| => RequiredDocument(entries[i].0, entries[i].1))
  }

  /** A list whose type strings are the values of pairwise distinct members is
      catalogued and free of repetitions. */
  lemma WellFormedByMembers(entries: seq<(string, bool)>, ts: seq<DocumentType>)
    requires |entries| == |ts| > 0
    requires forall i :: 0 <= i < |ts| ==> entries[i].0 == DocumentTypeValue(ts[i])
    requires forall i, j :: 0 <= i < j < |ts| ==> ts[i] != ts[j]
    ensures var docs := ToRequiredDocuments(entries);
            |docs| > 0 && DistinctTypes(docs) && AllCatalogued(docs)
  {
    var docs := ToRequiredDocuments(entries);
    forall i | 0 <= i < |docs| ensures ParseDocumentType(docs[i].docType) == Some(ts[i]) {
      DocumentTypeRoundTrip(ts[i]);
    }
  }

  /** Every table entry is a non-empty list of catalogued, pairwise distinct types. */
  lemma TableWellFormed(purpose: string)
    requires purpose in Requirements
    ensures var docs := ToRequiredDocuments(Requirements[purpose]);
            |docs| > 0 && DistinctTypes(docs) && AllCatalogued(docs)
  {
    var members := map[
      "account_opening_savings" := [Pan, Aadhaar, Photograph, UtilityBill, BankStatement],
      "account_opening_salary" := [Pan, Aadhaar, Photograph, SalarySlip, UtilityBill, BankStatement],
      "address_update" := [Aadhaar, Pan, UtilityBill, BankStatement],
      "loan_application" := [Pan, Aadhaar, SalarySlip, Form16, Itr],
      "credit_card_kyc" := [Pan, Aadhaar, SalarySlip, Form16],
      "business_account" := [Pan, GstCertificate, IncorporationCertificate, Aadhaar]
    ];
    WellFormedByMembers(Requirements[purpose], members[purpose]);
  }

  /** `get_required_documents`: total; the table's list, in order, for a known purpose
      and PAN then Aadhaar, both mandatory, for any other. */
  function GetRequiredDocuments(purpose: string): (r: seq<RequiredDocument>)
    ensures purpose !in Requirements ==> r == Fallback
    ensures purpose in Requirements ==>
      && |r| == |Requirements[purpose]|
      && forall i :: 0 <= i < |r| ==>
           r[i].docType == Requirements[purpose][i].0 && r[i].required == Requirements[purpose][i].1
    ensures |r| > 0 && DistinctTypes(r) && AllCatalogued(r)
  {
    if purpose !in Requirements then Fallback
    else
      TableWellFormed(purpose);
      ToRequiredDocuments(Requirements[purpose])
  }

  /** Updating an address has no mandatory document at all. */
  lemma AddressUpdateHasNoMandatory()
    ensures forall d :: d in GetRequiredDocuments("address_update") ==> !d.required
  {
  }

  /** For a savings account both address proofs are optional, and exactly PAN,
      Aadhaar and the photograph are mandatory. */
  lemma SavingsAddressProofsOptional()
    ensures RequiredDocument("Utility", false) in GetRequiredDocuments("account_opening_savings")
    ensures RequiredDocument("BankStatement", false) in GetRequiredDocuments("account_opening_savings")
    ensures forall d :: d in GetRequiredDocuments("account_opening_savings") && d.required ==>
      d.docType in {"PAN", "Aadhaar", "Photograph"}
  {
    var r := GetRequiredDocuments("account_opening_savings");
    assert r[3] == RequiredDocument("Utility", false);
    assert r[4] == RequiredDocument("BankStatement", false);
  }

  /** The two tables cover the same purposes. */
  lemma SamePurposes()
    ensures DisplayNames.Keys == Requirements.Keys
  {
  }

  /** `get_purpose_display_name`: the fixed phrase of a known purpose; otherwise the
      purpose with "_" replaced by a space and title-cased. */
  function GetPurposeDisplayName(purpose: string): (r: string)
    ensures purpose in DisplayNames ==> r == DisplayNames[purpose]
    ensures purpose !in DisplayNames ==> |r| == |purpose| && '_' !in r
  {
    if purpose in DisplayNames then DisplayNames[purpose]
    else
      var spaced := PyStr.Replace(purpose, '_', ' ');
      forall i | 0 <= i < |spaced| ensures PyStr.Title(spaced)[i] != '_' {
        PyStr.TitleAt(spaced, i);
      }
      PyStr.Title(spaced)
  }

  /** The label of an unknown purpose, character by character: a letter is upper-case
      exactly when it is first or follows a non-letter, and lower-case otherwise;
      "_" becomes a space and everything else is kept. */
  lemma UnknownPurposeLabel(purpose: string, i: nat)
    requires purpose !in DisplayNames
    requires i < |purpose|
    ensures var r := GetPurposeDisplayName(purpose);
            && |r| == |purpose|
            && (PyStr.IsCased(purpose[i]) ==>
                  PyStr.ToLower(r[i]) == PyStr.ToLower(purpose[i])
                  && (PyStr.IsUpper(r[i]) <==> (i == 0 || !PyStr.IsCased(purpose[i - 1])))
                  && (PyStr.IsLower(r[i]) <==> !(i == 0 || !PyStr.IsCased(purpose[i - 1]))))
            && (purpose[i] == '_' ==> r[i] == ' ')
            && (!PyStr.IsCased(purpose[i]) && purpose[i] != '_' ==> r[i] == purpose[i])
  {
    var spaced := PyStr.Replace(purpose, '_', ' ');
    PyStr.TitleAt(spaced, i);
  }

  /** The six labels of the known purposes. */
  lemma KnownPurposeLabels()
    ensures GetPurposeDisplayName("account_opening_savings") == "Open Savings Account"
    ensures GetPurposeDisplayName("account_opening_salary") == "Open Salary Account"
    ensures GetPurposeDisplayName("address_update") == "Update Address"
    ensures GetPurposeDisplayName("loan_application") == "Loan Application"
    ensures GetPurposeDisplayName("credit_card_kyc") == "Credit Card KYC"
    ensures GetPurposeDisplayName("business_account") == "Open Business Account"
  {
    forall p | p in DisplayNames ensures GetPurposeDisplayName(p) == DisplayNames[p] {
    }
  }
}
