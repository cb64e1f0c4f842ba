/** The chat desk's session state and its two state changes: attaching a batch of
    uploads to the file registry, and sending a composed note to the agent with the
    registry listed after it. Whether a saved path still exists and what the agent
    answers are parameters of the model. */
module App {
  import opened Wrappers
  import PyStr
  import PyPath

  datatype Role = User | Assistant

  datatype ChatMessage = ChatMessage(role: Role, content: string)

  /** What one call of the agent does: answer with some content, or raise an
      exception whose text is given. */
  datatype AgentOutcome = Replied(content: string) | Raised(error: string)

  const FilesHeader: string := "\n\n[UPLOADED FILES AVAILABLE FOR ANALYSIS]\n"

  const NewUploadsTag: string := "\n\n[NEW UPLOADS]\n"

  const NewUploadsRequest: string :=
    "Please confirm you have received and reviewed the newly attached files listed below "
    + "before addressing the customer's request.\n"

  const NewUploadsInstructions: string := NewUploadsTag + NewUploadsRequest

  const ToolHint: string :=
    "You can use the analyze_document_image tool with these file paths to verify documents."

  const ErrorPrefix: string := "Sorry, I encountered an error: "

  /** `save_uploaded_file` without the write: the path a file is saved under. */
  function SavePath(tempDir: string, name: string): string {
    PyPath.Join(tempDir, name)
  }

  /** The saved path ends with the file's name, and a plain file name stays the name
      of its saved path. */
  lemma SavePathKeepsName(tempDir: string, name: string)
    ensures var p := SavePath(tempDir, name);
            |p| >= |name| && p[|p| - |name|..] == name
    ensures PyPath.IsComponent(name) ==> PyPath.Name(SavePath(tempDir, name)) == name
  {
    PyPath.JoinEnds(tempDir, name);
    if PyPath.IsComponent(name) {
      PyPath.NameOfJoin(tempDir, name);
    }
  }

  // ---------------------------------------------------------------------------
  // Attaching a batch of uploads

  /** No element occurs twice. */
  predicate Distinct(s: seq<string>) {
    forall i, j :: 0 <= i < j < |s| ==> s[i] != s[j]
  }

  /** The names of a batch that the registry did not hold before it, in the order of
      their first occurrence in the batch: a name already known, or repeated within the
      batch, is reported once at most. */
  function NewNames(known: set<string>, batch: seq<string>): seq<string>
    decreases |batch|
  {
    if batch == [] then []
    else
      var init := batch[..|batch| - 1];
      var x := batch[|batch| - 1];
      var prev := NewNames(known, init);
      if x in known || x in init then prev else prev + [x]
  }

  /** The new names are exactly the names of the batch that were not known, each
      listed once. */
  lemma {:induction false} NewNamesSpec(known: set<string>, batch: seq<string>)
    ensures forall x :: x in NewNames(known, batch) <==> x in batch && x !in known
    ensures Distinct(NewNames(known, batch))
    decreases |batch|
  {
    if batch != [] {
      var init := batch[..|batch| - 1];
      NewNamesSpec(known, init);
      assert batch == init + [batch[|batch| - 1]];
    }
  }

  /** An independent reading of the same list, scanning the batch from the front and
      adding each name to the known set as soon as it is seen. */
  function FirstSeen(known: set<string>, batch: seq<string>): (r: seq<string>)
    ensures |r| <= |batch|
    decreases |batch|
  {
    if batch == [] then []
    else if batch[0] in known then FirstSeen(known, batch[1..])
    else [batch[0]] + FirstSeen(known + {batch[0]}, batch[1..])
  }

  /** The first name of a batch is reported first, and afterwards counts as known. */
  lemma {:induction false} NewNamesCons(known: set<string>, x: string, rest: seq<string>)
    ensures NewNames(known, [x] + rest) ==
      (if x in known then [] else [x]) + NewNames(known + {x}, rest)
    decreases |rest|
  {
    var s := [x] + rest;
    if rest == [] {
      assert s[..|s| - 1] == [];
    } else {
      var r' := rest[..|rest| - 1];
      var y := rest[|rest| - 1];
      assert s[..|s| - 1] == [x] + r';
      assert s[|s| - 1] == y;
      NewNamesCons(known, x, r');
      assert y in [x] + r' <==> y == x || y in r';
    }
  }

  /** Both readings agree: the new names are the batch filtered, front to back, by
      "not seen before". */
  lemma {:induction false} NewNamesIsFirstSeen(known: set<string>, batch: seq<string>)
    ensures NewNames(known, batch) == FirstSeen(known, batch)
    decreases |batch|
  {
    if batch != [] {
      assert batch == [batch[0]] + batch[1..];
      NewNamesCons(known, batch[0], batch[1..]);
      if batch[0] in known {
        assert known + {batch[0]} == known;
        NewNamesIsFirstSeen(known, batch[1..]);
      } else {
        NewNamesIsFirstSeen(known + {batch[0]}, batch[1..]);
      }
    }
  }

  /** The registry after a batch: every name of the batch maps to its saved path, every
      other name keeps its old path. */
  function Register(files: map<string, string>, tempDir: string, batch: seq<string>): map<string, string>
    decreases |batch|
  {
    if batch == [] then files
    else
      var x := batch[|batch| - 1];
      Register(files, tempDir, batch[..|batch| - 1])[x := SavePath(tempDir, x)]
  }

  /** After a batch the registry holds the old names and the batch's names; each
      batch name maps to its saved path and every other name keeps its old path. */
  lemma {:induction false} RegisterSpec(files: map<string, string>, tempDir: string, batch: seq<string>)
    ensures var r := Register(files, tempDir, batch);
            && (forall n :: n in r <==> n in files || n in batch)
            && (forall n :: n in r ==> r[n] == if n in batch then SavePath(tempDir, n) else files[n])
    decreases |batch|
  {
    if batch != [] {
      var init := batch[..|batch| - 1];
      RegisterSpec(files, tempDir, init);
      assert batch == init + [batch[|batch| - 1]];
    }
  }

  /** One more name of a batch: it is reported exactly when the registry built so far
      does not hold it, and it is (re)registered under its saved path. */
  lemma AttachStep(known: set<string>, files0: map<string, string>, tempDir: string,
                   batch: seq<string>, i: nat, newFiles: seq<string>, files: map<string, string>)
    requires i < |batch|
    requires known == files0.Keys
    requires newFiles == NewNames(known, batch[..i])
    requires files == Register(files0, tempDir, batch[..i])
    ensures NewNames(known, batch[..i + 1]) ==
      if batch[i] in files then newFiles else newFiles + [batch[i]]
    ensures Register(files0, tempDir, batch[..i + 1]) == files[batch[i] := SavePath(tempDir, batch[i])]
  {
    assert batch[..i + 1][..i] == batch[..i];
    assert batch[..i + 1][i] == batch[i];
    RegisterSpec(files0, tempDir, batch[..i]);
  }

  /** Registering names that already map to their saved paths changes nothing. */
  lemma {:induction false} RegisterFixed(files: map<string, string>, tempDir: string, batch: seq<string>)
    requires forall i :: 0 <= i < |batch| ==>
      batch[i] in files && files[batch[i]] == SavePath(tempDir, batch[i])
    ensures Register(files, tempDir, batch) == files
    decreases |batch|
  {
    if batch != [] {
      var x := batch[|batch| - 1];
      RegisterFixed(files, tempDir, batch[..|batch| - 1]);
      assert files[x := SavePath(tempDir, x)] == files;
    }
  }

  /** A batch of known names brings no new name. */
  lemma {:induction false} NewNamesAllKnown(known: set<string>, batch: seq<string>)
    requires forall i :: 0 <= i < |batch| ==> batch[i] in known
    ensures NewNames(known, batch) == []
    decreases |batch|
  {
    if batch != [] {
      NewNamesAllKnown(known, batch[..|batch| - 1]);
    }
  }

  /** Attaching the same batch again changes nothing and reports no new name. */
  lemma RegisterIdempotent(files: map<string, string>, tempDir: string, batch: seq<string>)
    ensures var once := Register(files, tempDir, batch);
            && Register(once, tempDir, batch) == once
            && NewNames(once.Keys, batch) == []
  {
    var once := Register(files, tempDir, batch);
    RegisterSpec(files, tempDir, batch);
    RegisterFixed(once, tempDir, batch);
    NewNamesAllKnown(once.Keys, batch);
  }

  // ---------------------------------------------------------------------------
  // Composing the note sent to the agent

  /** The line block describing one registered file. */
  function FileEntry(name: string, path: string, pathExists: bool): string {
    if pathExists then "File: " + name + "\nPath: " + path + "\n\n"
    else "File: " + name + " (path not found: " + path + ")\n\n"
  }

  /** Either form of the entry starts by naming the file. */
  lemma FileEntryNamesFile(name: string, path: string, pathExists: bool)
    ensures var r := FileEntry(name, path, pathExists);
            |r| > 6 + |name| && r[..6 + |name|] == "File: " + name
  {
    var r := FileEntry(name, path, pathExists);
    var tail := if pathExists then "\nPath: " + path + "\n\n" else " (path not found: " + path + ")\n\n";
    assert r == ("File: " + name) + tail;
  }

  /** The registry's `(name, path)` items in the order given by `order`. */
  function Items(order: seq<string>, files: map<string, string>): (r: seq<(string, string)>)
    requires forall i :: 0 <= i < |order| ==> order[i] in files
    ensures |r| == |order|
    ensures forall i :: 0 <= i < |r| ==> r[i] == (order[i], files[order[i]])
  {
    seq(|order|, i requires 0 <= i < |order| => (order[i], files[order[i]]))
  }

  /** `"".join(parts)`: the parts one after the other. */
  function Concat(parts: seq<string>): string
    decreases |parts|
  {
    if parts == [] then "" else Concat(parts[..|parts| - 1]) + parts[|parts| - 1]
  }

  lemma {:induction false} ConcatAppend(a: seq<string>, b: seq<string>)
    ensures Concat(a + b) == Concat(a) + Concat(b)
    decreases |b|
  {
    if b == [] {
      assert a + b == a;
    } else {
      var b' := b[..|b| - 1];
      assert (a + b)[..|a + b| - 1] == a + b';
      ConcatAppend(a, b');
    }
  }

  /** One entry per item, saying whether its saved path exists. */
  function Entries(items: seq<(string, string)>, pathExists: string -> bool): (r: seq<string>)
    ensures |r| == |items|
    ensures forall i :: 0 <= i < |items| ==> r[i] == FileEntry(items[i].0, items[i].1, pathExists(items[i].1))
  {
    seq(|items|, i requires 0 <= i < |items| => FileEntry(items[i].0, items[i].1, pathExists(items[i].1)))
  }

  /** The entries of the given items, in order; a file is listed as present exactly
      when `pathExists` holds for its saved path. */
  function FileListing(items: seq<(string, string)>, pathExists: string -> bool): string {
    Concat(Entries(items, pathExists))
  }

  /** The listing of a concatenation is the concatenation of the listings. */
  lemma FileListingAppend(a: seq<(string, string)>, b: seq<(string, string)>, pathExists: string -> bool)
    ensures FileListing(a + b, pathExists) == FileListing(a, pathExists) + FileListing(b, pathExists)
  {
    assert Entries(a + b, pathExists) == Entries(a, pathExists) + Entries(b, pathExists);
    ConcatAppend(Entries(a, pathExists), Entries(b, pathExists));
  }

  /** A single item's listing is its entry. */
  lemma FileListingSingle(item: (string, string), pathExists: string -> bool)
    ensures FileListing([item], pathExists) == FileEntry(item.0, item.1, pathExists(item.1))
  {
    var es := Entries([item], pathExists);
    assert es[..0] == [];
    assert Concat(es) == Concat(es[..0]) + es[0];
    assert "" + es[0] == es[0];
  }

  /** Each item has its own entry, at its place in the listing. */
  lemma FileListingAt(items: seq<(string, string)>, pathExists: string -> bool, i: nat)
    requires i < |items|
    ensures FileListing(items, pathExists) ==
      FileListing(items[..i], pathExists)
      + FileEntry(items[i].0, items[i].1, pathExists(items[i].1))
      + FileListing(items[i + 1..], pathExists)
  {
    assert items == items[..i] + ([items[i]] + items[i + 1..]);
    FileListingAppend(items[..i], [items[i]] + items[i + 1..], pathExists);
    FileListingAppend([items[i]], items[i + 1..], pathExists);
    FileListingSingle(items[i], pathExists);
  }

  /** The block appended after the prompt when files are registered: the header, one
      entry per item and the tool hint, one after the other. */
  function FileInfo(items: seq<(string, string)>, pathExists: string -> bool): string {
    FilesHeader + FileListing(items, pathExists) + ToolHint
  }

  /** One more part extends a text made of some head and the concatenation of a
      prefix of the parts by that part. */
  lemma ConcatPrefixStep(acc: string, h: string, parts: seq<string>, i: nat)
    requires i < |parts|
    requires acc == h + Concat(parts[..i])
    ensures acc + parts[i] == h + Concat(parts[..i + 1])
  {
    assert parts[..i + 1][..i] == parts[..i];
  }

  /** The loop that builds the file block: the header, then one entry per registered
      file in the registry's order, then the tool hint. */
  method BuildFileInfo(order: seq<string>, files: map<string, string>, pathExists: string -> bool)
    returns (fileInfo: string)
    requires forall i :: 0 <= i < |order| ==> order[i] in files
    ensures fileInfo == FileInfo(Items(order, files), pathExists)
  {
    ghost var items := Items(order, files);
    ghost var es := Entries(items, pathExists);
    fileInfo := FilesHeader;
    assert es[..0] == [];
    var i := 0;
    while i < |order|
      invariant 0 <= i <= |order|
      invariant fileInfo == FilesHeader + Concat(es[..i])
    {
      var filename := order[i];
      var filePath := files[filename];
      ConcatPrefixStep(fileInfo, FilesHeader, es, i);
      fileInfo := fileInfo + FileEntry(filename, filePath, pathExists(filePath));
      i := i + 1;
    }
    assert es[..i] == es;
    fileInfo := fileInfo + ToolHint;
  }

  /** The instructions asking for an acknowledgement, present only when one is pending. */
  function Instructions(pending: bool): string {
    if pending then NewUploadsInstructions else ""
  }

  /** The note sent to the agent: the prompt alone when nothing is registered;
      otherwise the prompt, the new-uploads instructions when an acknowledgement is
      pending, and the file block. */
  function OutgoingMessage(
    prompt: string, items: seq<(string, string)>, pending: bool, pathExists: string -> bool): (r: string)
    ensures items == [] ==> r == prompt
  {
    if items == [] then prompt
    else prompt + Instructions(pending) + FileInfo(items, pathExists)
  }

  /** The note always begins with the customer's prompt, unchanged. */
  lemma OutgoingMessageStartsWithPrompt(
    prompt: string, items: seq<(string, string)>, pending: bool, pathExists: string -> bool)
    ensures var r := OutgoingMessage(prompt, items, pending, pathExists);
      |r| >= |prompt| && r[..|prompt|] == prompt
  {
    var r := OutgoingMessage(prompt, items, pending, pathExists);
    if items != [] {
      var rest := Instructions(pending) + FileInfo(items, pathExists);
      assert r == prompt + rest;
      assert (prompt + rest)[..|prompt|] == prompt;
    }
  }

  /** `s` holds `t` from index `k` on. */
  predicate HoldsAt(s: string, k: nat, t: string) {
    k + |t| <= |s| && s[k..k + |t|] == t
  }

  /** A text written between two others is found where it was written. */
  lemma HoldsBetween(a: string, t: string, rest: string)
    ensures HoldsAt(a + t + rest, |a|, t)
  {
    assert (a + t + rest)[|a|..|a| + |t|] == t;
  }

  /** A text appended last is found at the end. */
  lemma EndsWith(a: string, c: string, t: string)
    ensures HoldsAt(a + (c + t), |a + (c + t)| - |t|, t)
  {
    assert (a + (c + t))[|a + c|..] == t;
  }

  /** A single differing character rules a text out. */
  lemma NotHoldsAt(s: string, k: nat, t: string, j: nat)
    requires j < |t| && k + j < |s| && s[k + j] != t[j]
    ensures !HoldsAt(s, k, t)
  {
    if k + |t| <= |s| {
      assert s[k..k + |t|][j] == s[k + j];
    }
  }

  /** The header and the instructions differ in their fourth character. */
  lemma HeaderIsNotInstructions()
    ensures |FilesHeader| > 3 && |NewUploadsInstructions| > 3
    ensures FilesHeader[3] != NewUploadsInstructions[3]
  {
    assert NewUploadsInstructions[3] == NewUploadsTag[3];
  }

  /** A text that starts with `h` does not, after any prefix `a`, hold a text `t` that
      differs from `h` at position `j`. */
  lemma DifferentStart(a: string, h: string, rest: string, t: string, j: nat)
    requires j < |h| && j < |t| && h[j] != t[j]
    ensures !HoldsAt(a + (h + rest), |a|, t)
  {
    NotHoldsAt(a + (h + rest), |a|, t, j);
  }

  /** With files registered, the note asks for an acknowledgement of new uploads
      exactly when one is pending. */
  lemma OutgoingMessageAsksIffPending(
    prompt: string, items: seq<(string, string)>, pending: bool, pathExists: string -> bool)
    requires items != []
    ensures HoldsAt(OutgoingMessage(prompt, items, pending, pathExists), |prompt|, NewUploadsInstructions)
            <==> pending
  {
    var info := FileInfo(items, pathExists);
    if pending {
      HoldsBetween(prompt, NewUploadsInstructions, info);
    } else {
      var rest := FileListing(items, pathExists) + ToolHint;
      assert info == FilesHeader + rest;
      HeaderIsNotInstructions();
      DifferentStart(prompt + "", FilesHeader, rest, NewUploadsInstructions, 3);
    }
  }

  /** With files registered, the note ends with the tool hint. */
  lemma OutgoingMessageEndsWithHint(
    prompt: string, items: seq<(string, string)>, pending: bool, pathExists: string -> bool)
    requires items != []
    ensures var r := OutgoingMessage(prompt, items, pending, pathExists);
            HoldsAt(r, |r| - |ToolHint|, ToolHint)
  {
    EndsWith(prompt + Instructions(pending), FilesHeader + FileListing(items, pathExists), ToolHint);
  }

  /** The assistant's entry for one agent call: its answer, or the apology with the
      exception's text. */
  function Reply(outcome: AgentOutcome): (m: ChatMessage)
    ensures m.role == Assistant
    ensures outcome.Replied? ==> m.content == outcome.content
    ensures outcome.Raised? ==> m.content == ErrorPrefix + outcome.error
  {
    match outcome
    case Replied(c) => ChatMessage(Assistant, c)
    case Raised(e) => ChatMessage(Assistant, ErrorPrefix + e)
  }

  /** The thread alternates customer and desk messages, starting with the customer and
      ending with the desk. */
  predicate Alternating(messages: seq<ChatMessage>)
    decreases |messages|
  {
    || messages == []
    || (&& |messages| >= 2
        && messages[0].role == User && messages[1].role == Assistant
        && Alternating(messages[2..]))
  }

  /** A customer message followed by the desk's reply keeps the thread alternating. */
  lemma {:induction false} AlternatingAppend(messages: seq<ChatMessage>, question: ChatMessage, answer: ChatMessage)
    requires Alternating(messages)
    requires question.role == User && answer.role == Assistant
    ensures Alternating(messages + [question, answer])
    decreases |messages|
  {
    var ms := messages + [question, answer];
    if messages == [] {
      assert ms[2..] == [];
    } else {
      AlternatingAppend(messages[2..], question, answer);
      assert ms[2..] == messages[2..] + [question, answer];
    }
  }

  /** `order` lists each key of `files` exactly once: the iteration order of a dict. */
  ghost predicate InsertionOrder(order: seq<string>, files: map<string, string>) {
    && Distinct(order)
    && (forall n :: n in files <==> n in order)
  }

  /** Storing a name in the dict keeps the iteration order when the name was there
      already and appends it otherwise. */
  lemma InsertionOrderStep(order: seq<string>, files: map<string, string>, name: string, path: string)
    requires InsertionOrder(order, files)
    ensures InsertionOrder(if name in files then order else order + [name], files[name := path])
  {
  }

  /** Registering a batch and appending its new names to the iteration order keeps
      the order listing every registered name exactly once. */
  lemma {:induction false} RegisterKeepsInsertionOrder(files: map<string, string>, order: seq<string>,
                                                       tempDir: string, batch: seq<string>)
    requires InsertionOrder(order, files)
    ensures InsertionOrder(order + NewNames(files.Keys, batch), Register(files, tempDir, batch))
    decreases |batch|
  {
    if batch != [] {
      var init := batch[..|batch| - 1];
      var x := batch[|batch| - 1];
      RegisterKeepsInsertionOrder(files, order, tempDir, init);
      var f := Register(files, tempDir, init);
      var o := order + NewNames(files.Keys, init);
      RegisterSpec(files, tempDir, init);
      assert x in f <==> x in files.Keys || x in init;
      InsertionOrderStep(o, f, x, SavePath(tempDir, x));
      assert Register(files, tempDir, batch) == f[x := SavePath(tempDir, x)];
      assert order + NewNames(files.Keys, batch) == if x in f then o else o + [x];
    }
  }

  /** The loop over one upload batch: each name is stored in the registry under its
      saved path, and a name the registry did not hold yet is collected as new and
      appended to the iteration order. */
  method RegisterBatch(files: map<string, string>, order: seq<string>, tempDir: string, batch: seq<string>)
    returns (files': map<string, string>, order': seq<string>, newFiles: seq<string>)
    requires InsertionOrder(order, files)
    ensures newFiles == NewNames(files.Keys, batch)
    ensures files' == Register(files, tempDir, batch)
    ensures order' == order + newFiles
    ensures InsertionOrder(order', files')
  {
    files', order', newFiles := files, order, [];
    var i := 0;
    while i < |batch|
      invariant 0 <= i <= |batch|
      invariant newFiles == NewNames(files.Keys, batch[..i])
      invariant files' == Register(files, tempDir, batch[..i])
      invariant order' == order + newFiles
    {
      var name := batch[i];
      AttachStep(files.Keys, files, tempDir, batch, i, newFiles, files');
      if name !in files' {
        newFiles := newFiles + [name];
        order' := order' + [name];
      }
      files' := files'[name := SavePath(tempDir, name)];
      i := i + 1;
    }
    assert batch[..i] == batch;
    RegisterKeepsInsertionOrder(files, order, tempDir, batch);
  }

  /** The message handed to the agent for `prompt`, built by walking the registry
      `files` in its iteration order `order`. */
  method ComposeUserMessage(prompt: string, order: seq<string>, files: map<string, string>,
                            pending: bool, pathExists: string -> bool) returns (userMessage: string)
    requires InsertionOrder(order, files)
    ensures userMessage == OutgoingMessage(prompt, Items(order, files), pending, pathExists)
  {
    assert order != [] ==> order[0] in files;
    assert order == [] ==> files.Keys == {};
    userMessage := prompt;
    if files != map[] {
      var fileInfo := BuildFileInfo(order, files, pathExists);
      var instructions := "";
      if pending {
        instructions := NewUploadsInstructions;
      }
      userMessage := prompt + instructions + fileInfo;
    }
  }

  /** One exchange with the agent: the note composed for `prompt` goes to the agent,
      the prompt and the agent's reply (or the apology for its exception) extend the
      thread, and the acknowledgement stays pending only when the agent raised. */
  method Exchange(messages: seq<ChatMessage>, prompt: string, order: seq<string>,
                  files: map<string, string>, pending: bool, pathExists: string -> bool,
                  agent: string -> AgentOutcome)
    returns (userMessage: string, messages': seq<ChatMessage>, pending': bool)
    requires InsertionOrder(order, files)
    requires Alternating(messages)
    ensures userMessage == OutgoingMessage(prompt, Items(order, files), pending, pathExists)
    ensures messages' == messages + [ChatMessage(User, prompt), Reply(agent(userMessage))]
    ensures Alternating(messages')
    ensures pending' == (pending && agent(userMessage).Raised?)
  {
    var question := ChatMessage(User, prompt);
    userMessage := ComposeUserMessage(prompt, order, files, pending, pathExists);
    var outcome := agent(userMessage);
    var answer := Reply(outcome);
    AlternatingAppend(messages, question, answer);
    messages' := messages + [question, answer];
    pending' := pending && outcome.Raised?;
  }

  /** The session state of the chat desk. `fileOrder` is the insertion order of the
      registry `uploadedFiles`, which iterates in that order. */
  class Session {
    const tempDir: string
    var messages: seq<ChatMessage>
    var fileOrder: seq<string>
    var uploadedFiles: map<string, string>
    var pendingUploadAck: bool

    /** `fileOrder` lists each registered name once. */
    ghost predicate RegistryValid()
      reads this`fileOrder, this`uploadedFiles
    {
      InsertionOrder(fileOrder, uploadedFiles)
    }

    ghost predicate Valid()
      reads this
    {
      RegistryValid() && Alternating(messages)
    }

    /** A fresh session: empty thread, empty registry, no acknowledgement pending, and
        the temporary directory it was given. */
    constructor (tempDir: string)
      ensures Valid()
      ensures this.tempDir == tempDir
      ensures messages == [] && fileOrder == [] && uploadedFiles == map[]
      ensures !pendingUploadAck
    {
      this.tempDir := tempDir;
      messages := [];
      fileOrder := [];
      uploadedFiles := map[];
      pendingUploadAck := false;
    }

    /** Attach a batch of uploads: every name is (re)registered under its saved path,
        the names not registered before are returned and appended to the order, and an
        acknowledgement becomes pending when there is at least one of them. */
    method AttachBatch(batch: seq<string>) returns (newFiles: seq<string>)
      requires Valid()
      modifies this
      ensures Valid()
      ensures newFiles == NewNames(old(uploadedFiles).Keys, batch)
      ensures fileOrder == old(fileOrder) + newFiles
      ensures uploadedFiles == Register(old(uploadedFiles), tempDir, batch)
      ensures pendingUploadAck == (old(pendingUploadAck) || newFiles != [])
      ensures messages == old(messages)
    {
      var files, order;
      files, order, newFiles := RegisterBatch(uploadedFiles, fileOrder, tempDir, batch);
      uploadedFiles := files;
      fileOrder := order;
      if newFiles != [] {
        pendingUploadAck := true;
      }
    }

    /** Send the composed note. Nothing happens unless the form was submitted with a
        prompt that is not blank. Otherwise the prompt is appended to the thread,
        the composed message goes to the agent, and the agent's answer, or the apology
        for its exception, follows; the acknowledgement is cleared only when the agent
        answered. The registry is unchanged. */
    method Submit(submitted: bool, prompt: string, pathExists: string -> bool, agent: string -> AgentOutcome)
      returns (sent: Option<string>)
      requires Valid()
      modifies this
      ensures Valid()
      ensures fileOrder == old(fileOrder) && uploadedFiles == old(uploadedFiles)
      ensures !(submitted && PyStr.Strip(prompt) != "") ==>
        && sent == None
        && messages == old(messages)
        && pendingUploadAck == old(pendingUploadAck)
      ensures submitted && PyStr.Strip(prompt) != "" ==>
        && sent == Some(OutgoingMessage(prompt, Items(old(fileOrder), old(uploadedFiles)), old(pendingUploadAck), pathExists))
        && messages == old(messages) + [ChatMessage(User, prompt), Reply(agent(sent.value))]
        && pendingUploadAck == (old(pendingUploadAck) && agent(sent.value).Raised?)
    {
      sent := None;
      if submitted && PyStr.Strip(prompt) != "" {
        var userMessage, thread, pending :=
          Exchange(messages, prompt, fileOrder, uploadedFiles, pendingUploadAck, pathExists, agent);
        sent := Some(userMessage);
        messages := thread;
        pendingUploadAck := pending;
      }
    }
  }
}
