# Document verification desk: a Dafny model of its executable core

The repository is a chat desk for checking bank KYC documents. A Streamlit page
collects uploads and a note from the customer, and an LLM agent answers. The agent
has one tool that sends an image to a vision model. Around that glue the code
implements four small pieces of real behaviour. This project models those four
pieces and proves what they promise:

- **Requirement rules** (`document_requirements.dfy`). A fixed table maps each of six
  purposes to an ordered list of `(document type, mandatory)` pairs. A total lookup
  falls back to PAN then Aadhaar, both mandatory, for an unknown purpose. A total
  label function gives a fixed phrase for a known purpose and `purpose.replace("_", " ").title()`
  for any other.
- **Verification schema** (`models.dfy`). It covers the three string enumerations
  (document catalogue, consistency status, decision) and the Pydantic records.
  Each record is a datatype. Building a record is a function that returns the record,
  with omitted fields at their defaults, or the list of fields that fail validation.
- **Image MIME type and result heading** (`verification_tools.dfy`). The tool lower-cases
  the last suffix of the path's final component and looks it up in a table whose
  default is JPEG. It prefixes the model's answer with `Analysis of <file>:` when a
  file name is given.
- **Session state of the chat page** (`app.dfy`). A `Session` class holds the file
  registry (a dict in insertion order), the `pending_upload_ack` flag and the message
  thread. `AttachBatch` updates the registry in place for one upload batch and
  collects the new names. `Submit` composes the outgoing note in a loop over the
  registry, calls the agent and appends to the thread.

Three helper modules hold the Python library behaviour these pieces depend on.
`pystr.dfy` has `str.lower`, `str.replace`, `str.title` and `str.strip`. `pypath.dfy`
has `str.rfind`, `PurePosixPath.name`, `PurePosixPath.suffix` and `os.path.join`.
`wrappers.dfy` has `Option` and `Result`.

Some behaviour is asked of the LLM in its prompts and is not code. The prompts ask for
an APPROVED, REVIEW_REQUIRED or REJECTED decision and for masked document numbers
(verification_agent.py:52-54, 66; verification_tools.py:83, 87-91, 124-141). The
requirement table's comments mention "one of" address, identity and income proofs
(document_requirements.py:13-14, 21-22, 25-28, 33-35), but every such entry is a
plain optional flag. The model follows the code, so it has no decision procedure, no
masking and no OR-group.

## Model

| member | source | states |
|---|---|---|
| `DocumentRequirements.GetRequiredDocuments` | document_requirements.py:52-72 | Total. An unknown purpose gives exactly `[PAN required, Aadhaar required]`. A known purpose gives a list of the same length and order as its table entry, with each element's type and flag equal to the pair's. Every result is non-empty, has no repeated type, and names only catalogue members. |
| `DocumentRequirements.TableWellFormed` | document_requirements.py:8-49 | Every table entry is non-empty, has pairwise distinct types, and each type string is the value of a `DocumentType` member. |
| `DocumentRequirements.WellFormedByMembers` | document_requirements.py:8-49 | A pair list whose type strings are values of pairwise distinct members gives a non-empty, duplicate-free, catalogued document list. |
| `DocumentRequirements.ToRequiredDocuments` | document_requirements.py:69-72 | The list comprehension gives one `RequiredDocument` per pair, same length and order, with `type` and `required` taken from the pair. |
| `DocumentRequirements.AddressUpdateHasNoMandatory` | document_requirements.py:24-29 | `address_update` has no mandatory entry. |
| `DocumentRequirements.SavingsAddressProofsOptional` | document_requirements.py:9-15 | In `account_opening_savings`, `Utility` and `BankStatement` are both optional, and the only mandatory types are PAN, Aadhaar and Photograph. |
| `DocumentRequirements.SamePurposes` | document_requirements.py:8-49 | The requirement table and the label table cover the same six purposes. |
| `DocumentRequirements.GetPurposeDisplayName` | document_requirements.py:75-85 | Total. A known purpose gets its fixed phrase. An unknown purpose gets a label of the same length with no `_`. |
| `DocumentRequirements.UnknownPurposeLabel` | document_requirements.py:85 | For an unknown purpose, each `_` becomes a space and other uncased characters are kept. A letter keeps its letter but is upper-case exactly when it is first or follows a non-letter, and lower-case otherwise. |
| `DocumentRequirements.KnownPurposeLabels` | document_requirements.py:77-84 | The six known purposes get their six phrases. |
| `Models.ParseDocumentType` | models.py:9-26 | By-value lookup: a found member's value is the given string (value to member to value is the identity). |
| `Models.DocumentTypeRoundTrip` | models.py:9-26 | `DocumentTypeValue`, the member's value: member to value to member is the identity for all sixteen members, `Other` included. |
| `Models.DocumentTypeCatalogue` | models.py:9-26 | The catalogue has exactly sixteen members, every member is listed, and their values are pairwise distinct. |
| `Models.ParseConsistencyStatus` | models.py:29-33 | By-value lookup; a found member's value is the given string. |
| `Models.ConsistencyStatusRoundTrip` | models.py:29-33 | Member to value to member is the identity, and distinct members have distinct values. |
| `Models.ParseDecision` | models.py:36-40 | By-value lookup; a found member's value is the given string. |
| `Models.DecisionRoundTrip` | models.py:36-40 | Member to value to member is the identity, and distinct members have distinct values. |
| `Models.NoExtractedFields` | models.py:49-61 | `ExtractedFields()` with nothing given is valid and has every attribute absent. |
| `Models.NewDocumentUpload` | models.py:64-73 | Construction succeeds exactly when 0 <= confidence <= 100, and otherwise reports that field. On success every given field is stored as given, `detected_type` unvalidated. An omitted `tamper_flag` is false and omitted `notes` are empty. |
| `Models.NewCrossChecks` | models.py:76-80 | Construction succeeds exactly when both statuses are member values and the face score, if present, lies in 0..100. An omitted face score is absent. On failure each failing field is reported. |
| `Models.NewAudit` | models.py:83-87 | Omitted `logs` are empty; the other fields are kept as given. |
| `Models.NewVerificationResult` | models.py:90-106 | Construction succeeds exactly when the decision string is a `Decision` value, which is stored as that string. Every other given field is stored as given. Omitted `uploads`, `decision_reasons` and `next_actions` are empty. `escalate_to_human` defaults to false and the escalation reason to absent. Valid parts give a valid result. |
| `Models.DecisionStoredAsValue` | models.py:98-106 | A result built from a `Decision` member stores that member's string value, and parsing it recovers the member. |
| `VerificationTools.GetImageMimeType` | verification_tools.py:27-37 | Total over all path strings, and always one of the four image MIME types. |
| `VerificationTools.MimeTypeByExtension` | verification_tools.py:27-37 | A path is PNG, GIF or WebP exactly when its final component, case-folded, ends with `.png`, `.gif` or `.webp` after some other character. Every other path, `.jpg`, `.jpeg` and `.pdf` included, is JPEG. |
| `VerificationTools.LookupMimeType` | verification_tools.py:30-37 | Table lookup with default: an extension gets `image/png`, `image/gif` or `image/webp` exactly when it is `.png`, `.gif` or `.webp`, and `image/jpeg` exactly when it is none of them. |
| `VerificationTools.LowerSuffix` | verification_tools.py:29 | Lower-casing the suffix equals taking the suffix of the lower-cased name. |
| `VerificationTools.LowerSuffixIs` | verification_tools.py:29 | A dotted extension is the lower-cased suffix exactly when the case-folded name ends with it after at least one other character. |
| `VerificationTools.MimeTypeOfFinalComponent` | verification_tools.py:29 | A directory prefix never changes the type; only the final component matters. |
| `VerificationTools.MimeTypeOfStemAndExtension` | verification_tools.py:29-37 | A name made of a non-empty stem and a dotted extension gets the type of the case-folded extension, whatever dots the stem holds. |
| `VerificationTools.MimeTypeIgnoresTrailingSeparator` | verification_tools.py:29 | A trailing `/` does not change the type: `a.png/` is still PNG. |
| `VerificationTools.MimeTypeOfDotFile` | verification_tools.py:29 | A name that is only a dotted extension, such as `.png`, has no suffix and is JPEG. |
| `VerificationTools.NoSuffixIsJpeg` | verification_tools.py:29-37 | A path whose final component has no suffix is JPEG. |
| `VerificationTools.MimeTypeWithoutDot` | verification_tools.py:29-37 | A name without a dot has no suffix and is JPEG. |
| `VerificationTools.MimeTypeExampleUpperCase` | verification_tools.py:29 | `SCAN.PNG` is `image/png`. |
| `VerificationTools.MimeTypeExampleLastSuffix` | verification_tools.py:29 | `a.pdf.png` is `image/png`. |
| `VerificationTools.MimeTypeExampleInnerSuffix` | verification_tools.py:29 | `a.png.pdf` is `image/jpeg`. |
| `VerificationTools.MimeTypeExampleDotFile` | verification_tools.py:29 | `.png` is `image/jpeg`. |
| `VerificationTools.AnalysisOutput` | verification_tools.py:167-171 | With a non-empty file name the output is `"Analysis of " + filename + ":\n\n"` followed by the result. Otherwise it is the result verbatim. |
| `PyPath.Suffix` | verification_tools.py:29 | `Path.suffix`: empty, or a proper tail of the name that starts with its only dot and has at least one character after it. |
| `PyPath.SuffixIs` | verification_tools.py:29 | A dotted extension is the suffix exactly when the name ends with it after at least one other character. |
| `PyPath.NameIgnoresTrailingSeparator` | verification_tools.py:29 | `Path.name` ignores a trailing separator. |
| `PyPath.Name` | verification_tools.py:29 | `Path.name` holds no separator and is never `.`. |
| `PyPath.JoinEnds` | app.py:60 | `Join`, which models `os.path.join(a, b)`: the result ends with `b`, and starts with `a` unless `b` is absolute. |
| `PyPath.NameOfJoin` | app.py:58-60 | A file saved under a directory keeps its own name as its path's final component. |
| `PyStr.Lower` | verification_tools.py:29 | `str.lower()` keeps the length and lower-cases each character on its own. |
| `PyStr.Replace` | document_requirements.py:85 | `str.replace` of one character keeps the length and swaps exactly the occurrences of the pattern. |
| `PyStr.Title` | document_requirements.py:85 | `str.title()` keeps the length; its per-character rule is stated by `TitleAt`. |
| `PyStr.TitleAt` | document_requirements.py:85 | `str.title()` upper-cases exactly the letters that start a word, lower-cases every other letter, and keeps uncased characters. |
| `PyStr.Strip` | app.py:110 | `str.strip()` never lengthens the string; what it keeps is stated by `StripSpec`. |
| `PyStr.StripSpec` | app.py:110 | `Strip`, which models `prompt.strip()`: the result is the input's slice between its leading and trailing whitespace runs, all of whose characters are whitespace. It is empty exactly when the prompt is all whitespace, and otherwise starts and ends with a non-whitespace character. |
| `App.SavePathKeepsName` | app.py:58-63 | `SavePath`, which models `save_uploaded_file`'s returned path: it ends with the file's name, and a plain file name is the path's final component. |
| `App.NewNamesSpec` | app.py:90-95 | `NewNames`, which models the loop's `new_files`: the new names are exactly the batch names the registry did not hold, each listed once. |
| `App.NewNamesIsFirstSeen` | app.py:91-95 | The new names are the batch scanned front to back, keeping each name not seen before (in the registry or earlier in the batch), in batch order. |
| `App.RegisterSpec` | app.py:91-95 | `Register`, which models the loop's writes to `uploaded_files`: after a batch, the registry holds exactly the old names and the batch names; every batch name maps to `join(temp_dir, name)` and every other entry keeps its path. |
| `App.AttachStep` | app.py:91-95 | One more file of the batch adds its name to the new names exactly when the registry does not hold it yet, and maps it to its saved path. |
| `App.RegisterKeepsInsertionOrder` | app.py:89-95 | Appending the new names to the registry's iteration order keeps it listing every registered name exactly once. |
| `App.RegisterBatch` | app.py:89-95 | The loop over a batch returns the new names, the registry after the batch, and the iteration order extended by the new names, which still lists every name once. |
| `App.RegisterIdempotent` | app.py:89-101 | Attaching the same batch again leaves the registry unchanged and reports no new file. |
| `App.Session.constructor` | app.py:45-55 | A fresh session has an empty thread and registry and no acknowledgement pending. |
| `App.Session.AttachBatch` | app.py:89-101 | The loop returns the new names and appends them to the registry order. The registry becomes `Register` of the old one. `pending_upload_ack` becomes true when there is a new name and otherwise keeps its value. The thread is unchanged. |
| `App.BuildFileInfo` | app.py:117-131 | The result is `FileInfo` of the registry items, the function for the file block: the loop builds the header, then one entry per registry item in order, then the tool hint. |
| `App.FileEntryNamesFile` | app.py:119-122 | `FileEntry`, which models one file's line pair: both the "exists" and the "path not found" form start with `File: ` and the file's name. |
| `App.FileListingAt` | app.py:118-122 | Each registry item has its own entry at its place, in the "exists" or "path not found" form as the existence oracle says. |
| `App.OutgoingMessage` | app.py:114-132 | An empty registry sends the prompt alone. |
| `App.OutgoingMessageStartsWithPrompt` | app.py:114-132 | The message always starts with the prompt, unchanged. |
| `App.OutgoingMessageAsksIffPending` | app.py:124-132 | `Instructions`, which models `instructions`, inside the message: with files registered, the `[NEW UPLOADS]` instructions follow the prompt exactly when an acknowledgement is pending. |
| `App.OutgoingMessageEndsWithHint` | app.py:131-132 | With files registered, the message ends with the tool hint. |
| `App.ComposeUserMessage` | app.py:114-132 | The composed message is `OutgoingMessage` of the prompt, the registry in insertion order, the flag and the oracle. |
| `App.Reply` | app.py:135-151 | The assistant's entry is the agent's answer, or `Sorry, I encountered an error: ` followed by the exception text. |
| `App.AlternatingAppend` | app.py:111-151 | A user message followed by an assistant message keeps the thread alternating. |
| `App.Exchange` | app.py:111-151 | The composed note goes to the agent; the thread gains the prompt and then the answer or the apology, stays alternating, and the acknowledgement stays pending only when the agent raised. |
| `App.Session.Submit` | app.py:110-151 | An unsubmitted or blank prompt changes nothing. Otherwise one user message and then one assistant message are appended, on success and on error. The flag is cleared only when the agent answered. The registry is unchanged. |

## Left out

- The OpenAI client, its lazy global and the vision call (verification_tools.py:11-18, 40-167) are network I/O through a foreign library. `AnalysisOutput` takes the model's answer as an input.
- Image reading and base64 encoding (verification_tools.py:21-24) and the file write in `save_uploaded_file` (app.py:58-63) are file I/O. `SavePath` models only the returned path.
- Whether a saved path exists (`os.path.exists`) and what the agent answers or raises are function parameters (oracles) of `Session.Submit`.
- The prompt texts (verification_tools.py:75-142, verification_agent.py:8-101) are free text for an LLM with no behaviour of their own. `create_agent` (verification_agent.py:104-115) is a thin wrapper over the agent framework.
- All Streamlit rendering, layout, spinners, success and info banners, secrets handling and `st.rerun` (app.py:8-42, 66-87, 104-108) are UI. The upload batch and the form's `submitted`/`prompt` values are inputs.
- example_usage.py only prints. It imports `DocumentVerificationAgent`, which verification_agent.py does not define.
- `salary` is a Python float. It is kept as an opaque 64-bit pattern and no arithmetic is done on it.
- Pydantic's type coercion (say, `"5"` to an int) is not modelled. Arguments already have their field's type, and an omitted argument is `None`. Nested records are instances, which Pydantic accepts without checking them again.
- The generic exception handler of the tool (verification_tools.py:173-174) is not modelled. The app's handler is modelled only as the error reply that is appended.
- PyStr.Lower, PyStr.Title: case mapping covers ASCII letters only; every other character is treated as uncased and unchanged. Non-ASCII letters in an unknown purpose's label are therefore not title-cased as Python would. For MIME lookup this changes nothing, because no non-ASCII character lower-cases to a character of the table's keys except U+212A KELVIN SIGN and U+0130, and neither can complete a key.
- PyPath.Name, PyPath.Suffix, PyPath.Join: the host is assumed to be POSIX, so `/` is the only separator. On Windows `Path` and `os.path.join` also split on `\` and join with it, so `a.png\` would name `a.png` and saved paths would use `\`; this is not modelled.
- PyPath.Suffix follows the rule of Python 3.13 and earlier: the dot must be neither the first nor the last character of the name. Later versions also treat a trailing `.` as a suffix, which never changes the MIME type.
- Session.Submit: the customer's message and the reply are appended together once the agent has returned. The page appends the customer's message before composing the note. Nothing in the model reads the thread in between, so only an interruption during the agent call could show the difference.
