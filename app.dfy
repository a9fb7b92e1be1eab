/**
 * The application component's state logic: the voice transcript merge, the
 * attachment list edits, the send guard, title derivation, and the send
 * protocol (optimistic append, fragment merge, finalisation, rollback).
 */
module App {
  import opened Base
  import opened Text
  import opened JsMaps
  import opened ChatHistory
  import opened GeminiService

  /** A picked file; only its name matters to the list edits. */
  datatype Attachment = Attachment(name: string, mediaType: string, size: nat)

  // ---------------------------------------------------------------------
  // Voice transcript

  /**
   * `handleTranscript`'s update: the trimmed question, a single space when
   * it is non-empty, then the transcript.
   */
  function AppendTranscript(prev: string, transcript: string): (r: string)
    ensures Trim(prev) <= r
    ensures |r| == |Trim(prev)| + |transcript| + (if Trim(prev) == "" then 0 else 1)
    ensures r[|r| - |transcript|..] == transcript
    ensures Trim(prev) != "" ==> r == Trim(prev) + " " + transcript
    ensures Trim(prev) == "" ==> r == transcript
  {
    var p := Trim(prev);
    p + (if p != "" then " " else "") + transcript
  }

  /** The question after the transcripts `ts` arrived one after the other. */
  function Dictate(prev: string, ts: seq<string>): string
  {
    if ts == [] then prev else AppendTranscript(Dictate(prev, ts[..|ts| - 1]), ts[|ts| - 1])
  }

  /** Joining one more piece puts a single space and that piece at the end. */
  lemma {:induction false} JoinSnoc(ts: seq<string>, t: string)
    requires ts != []
    ensures Join(ts + [t]) == Join(ts) + " " + t
  {
    if |ts| == 1 {
      assert (ts + [t])[1..] == [t];
    } else {
      assert (ts + [t])[1..] == ts[1..] + [t];
      JoinSnoc(ts[1..], t);
    }
  }

  /** A non-empty text without white space at either end. */
  predicate Tidy(t: string)
  {
    t != "" && !IsSpace(t[0]) && !IsSpace(t[|t| - 1])
  }

  /**
   * Utterances without surrounding white space, dictated into a blank
   * question, end up as that question joined by single spaces.
   */
  lemma {:induction false} DictationJoins(prev: string, ts: seq<string>)
    requires Trim(prev) == ""
    requires forall i :: 0 <= i < |ts| ==> Tidy(ts[i])
    ensures ts != [] ==> Dictate(prev, ts) == Join(ts) && Tidy(Join(ts))
  {
    if |ts| == 1 {
      assert ts[..0] == [];
      assert Dictate(prev, ts) == AppendTranscript(prev, ts[0]) == ts[0];
      assert Join(ts) == ts[0];
    } else if |ts| > 1 {
      var init, t := ts[..|ts| - 1], ts[|ts| - 1];
      assert ts == init + [t];
      assert forall i :: 0 <= i < |init| ==> Tidy(init[i]) by {
        forall i | 0 <= i < |init| ensures Tidy(init[i]) {
          assert init[i] == ts[i];
        }
      }
      DictationJoins(prev, init);
      DictateStep(Join(init), t);
      JoinSnoc(init, t);
    }
  }

  /** A transcript appended to a question without surrounding white space. */
  lemma DictateStep(j: string, t: string)
    requires Tidy(j) && Tidy(t)
    ensures AppendTranscript(j, t) == j + " " + t && Tidy(j + " " + t)
  {
    TrimmedIsFixed(j);
    var r := j + " " + t;
    assert r[0] == j[0] && r[|r| - 1] == t[|t| - 1];
  }

  // ---------------------------------------------------------------------
  // Attachments

  /** The map `new Map(files.map(f => [f.name, f]))`. */
  function ByName(files: seq<Attachment>): (m: JsMap<Attachment>)
    ensures m.Valid()
  {
    if files == [] then Empty()
    else
      var f := files[|files| - 1];
      Set(ByName(files[..|files| - 1]), f.name, f)
  }

  /** `handleFileChange`'s list: the picked files added, one file per name. */
  function AddFiles(current: seq<Attachment>, added: seq<Attachment>): seq<Attachment>
  {
    Values(ByName(current + added))
  }

  /** The index of the first file named `n`, or `|files|`. */
  function FirstNamed(files: seq<Attachment>, n: string): (k: nat)
    ensures k <= |files|
    ensures forall j :: 0 <= j < k ==> files[j].name != n
    ensures k < |files| ==> files[k].name == n
  {
    if files == [] then 0 else if files[0].name == n then 0 else 1 + FirstNamed(files[1..], n)
  }

  /** The index of the last file named `n`, or `|files|` when there is none. */
  function LastNamed(files: seq<Attachment>, n: string): (k: nat)
    ensures k <= |files|
    ensures k < |files| ==> files[k].name == n && forall j :: k < j < |files| ==> files[j].name != n
    ensures k == |files| ==> forall j :: 0 <= j < |files| ==> files[j].name != n
  {
    if files == [] then 0
    else if files[|files| - 1].name == n then |files| - 1
    else
      var k := LastNamed(files[..|files| - 1], n);
      if k == |files| - 1 then |files| else k
  }

  /** Appending a file does not move the first occurrence of a name already present. */
  lemma {:induction false} FirstNamedSnoc(files: seq<Attachment>, f: Attachment, n: string)
    ensures FirstNamed(files + [f], n) ==
      if FirstNamed(files, n) < |files| then FirstNamed(files, n)
      else if f.name == n then |files| else |files| + 1
  {
    assert forall j :: 0 <= j < |files| ==> (files + [f])[j] == files[j];
    assert (files + [f])[|files|] == f;
  }

  /** A name is a key exactly when some file has it. */
  lemma {:induction false} ByNameKeys(files: seq<Attachment>)
    ensures forall n :: n in ByName(files).entries <==> exists k :: 0 <= k < |files| && files[k].name == n
  {
    if files != [] {
      var init := files[..|files| - 1];
      ByNameKeys(init);
      forall n ensures n in ByName(files).entries <==> exists k :: 0 <= k < |files| && files[k].name == n {
        if n in ByName(init).entries {
          var k :| 0 <= k < |init| && init[k].name == n;
          assert files[k] == init[k];
        }
        if exists k :: 0 <= k < |files| && files[k].name == n {
          var k :| 0 <= k < |files| && files[k].name == n;
          if k < |init| {
            assert init[k] == files[k];
          }
        }
      }
    }
  }

  /** Each name holds its LAST file. */
  lemma {:induction false} ByNameLast(files: seq<Attachment>)
    ensures forall n :: n in ByName(files).entries ==>
      LastNamed(files, n) < |files| && ByName(files).entries[n] == files[LastNamed(files, n)]
  {
    if files != [] {
      var init := files[..|files| - 1];
      ByNameLast(init);
      forall n | n in ByName(files).entries
        ensures LastNamed(files, n) < |files| && ByName(files).entries[n] == files[LastNamed(files, n)]
      {
        if files[|files| - 1].name != n {
          assert files[LastNamed(init, n)] == init[LastNamed(init, n)];
        }
      }
    }
  }

  /** Every key's first occurrence lies inside the list. */
  lemma KeysPresent(files: seq<Attachment>)
    ensures var m := ByName(files); forall k :: 0 <= k < |m.keys| ==> FirstNamed(files, m.keys[k]) < |files|
  {
    var m := ByName(files);
    ByNameKeys(files);
    forall k | 0 <= k < |m.keys| ensures FirstNamed(files, m.keys[k]) < |files| {
      assert m.keys[k] in m.keys;
    }
  }

  /** A name that is not a key names no file. */
  lemma ByNameAbsent(files: seq<Attachment>, n: string)
    requires n !in ByName(files).entries
    ensures FirstNamed(files, n) == |files|
  {
    ByNameKeys(files);
  }

  /** Adding a file keeps the keys of its name map, appending its name when it is new. */
  lemma ByNameSnocKeys(init: seq<Attachment>, f: Attachment)
    ensures var m0, m := ByName(init), ByName(init + [f]);
      m.keys == if f.name in m0.entries then m0.keys else m0.keys + [f.name]
  {
    assert (init + [f])[..|init|] == init;
  }

  /** The names are listed in the order of their first occurrence. */
  lemma {:induction false} ByNameOrder(files: seq<Attachment>)
    ensures var m := ByName(files);
      forall i, j :: 0 <= i < j < |m.keys| ==> FirstNamed(files, m.keys[i]) < FirstNamed(files, m.keys[j])
  {
    if files != [] {
      var init, f := files[..|files| - 1], files[|files| - 1];
      assert files == init + [f];
      ByNameOrder(init);
      ByNameSnocKeys(init, f);
      var m0, m := ByName(init), ByName(files);
      KeysPresent(init);
      if f.name !in m0.entries {
        ByNameAbsent(init, f.name);
      }
      forall i, j | 0 <= i < j < |m.keys|
        ensures FirstNamed(files, m.keys[i]) < FirstNamed(files, m.keys[j])
      {
        assert m.keys[i] == m0.keys[i];
        if j < |m0.keys| {
          assert m.keys[j] == m0.keys[j];
        }
        OrderStep(init, f, m.keys[i], m.keys[j]);
      }
    }
  }

  /** One pair of keys in the induction step of `ByNameOrder`. */
  lemma OrderStep(init: seq<Attachment>, f: Attachment, a: string, b: string)
    requires FirstNamed(init, a) < |init|
    requires FirstNamed(init, a) < FirstNamed(init, b) || (b == f.name && FirstNamed(init, b) == |init|)
    ensures FirstNamed(init + [f], a) < FirstNamed(init + [f], b)
  {
    FirstNamedSnoc(init, f, a);
    FirstNamedSnoc(init, f, b);
  }

  /**
   * The attachment list after files are picked: names pairwise distinct,
   * each name at the place of its first occurrence and holding the file of
   * its last occurrence.
   */
  lemma AddFilesFacts(current: seq<Attachment>, added: seq<Attachment>)
    ensures var all, r := current + added, AddFiles(current, added);
      && (forall i, j :: 0 <= i < j < |r| ==> r[i].name != r[j].name)
      && (forall i :: 0 <= i < |r| ==> LastNamed(all, r[i].name) < |all| && r[i] == all[LastNamed(all, r[i].name)])
      && (forall i, j :: 0 <= i < j < |r| ==> FirstNamed(all, r[i].name) < FirstNamed(all, r[j].name))
  {
    var all := current + added;
    var m := ByName(all);
    ByNameLast(all);
    ByNameOrder(all);
    AddFilesNames(current, added);
  }

  /** The files of the attachment list are the values of the name map, in key order. */
  lemma AddFilesNames(current: seq<Attachment>, added: seq<Attachment>)
    ensures var m, r := ByName(current + added), AddFiles(current, added);
      |r| == |m.keys| && forall i :: 0 <= i < |r| ==> m.keys[i] in m.entries && r[i].name == m.keys[i]
  {
    var all := current + added;
    var m, r := ByName(all), AddFiles(current, added);
    ByNameLast(all);
    assert forall i :: 0 <= i < |r| ==> m.keys[i] in m.entries && r[i] == m.entries[m.keys[i]];
  }

  /** Every name among the old and the new files is in the attachment list. */
  lemma AddFilesComplete(current: seq<Attachment>, added: seq<Attachment>)
    ensures var all, r := current + added, AddFiles(current, added);
      forall k :: 0 <= k < |all| ==> exists i :: 0 <= i < |r| && r[i].name == all[k].name
  {
    var all, r := current + added, AddFiles(current, added);
    var m := ByName(all);
    ByNameKeys(all);
    AddFilesNames(current, added);
    forall k | 0 <= k < |all| ensures exists i :: 0 <= i < |r| && r[i].name == all[k].name {
      assert all[k].name in m.entries;
      assert all[k].name in m.keys;
      var i :| 0 <= i < |m.keys| && m.keys[i] == all[k].name;
      assert r[i].name == all[k].name;
    }
  }

  /** `handleRemoveFile`'s update: `files.filter(file => file.name !== name)`. */
  function RemoveFile(files: seq<Attachment>, name: string): (r: seq<Attachment>)
    ensures |r| <= |files|
    ensures forall f :: f in r <==> f in files && f.name != name
  {
    if files == [] then []
    else (if files[0].name == name then [] else [files[0]]) + RemoveFile(files[1..], name)
  }

  /** Removing by name from a concatenation removes from each part and keeps their order. */
  lemma {:induction false} RemoveFileAppend(a: seq<Attachment>, b: seq<Attachment>, name: string)
    ensures RemoveFile(a + b, name) == RemoveFile(a, name) + RemoveFile(b, name)
  {
    if a != [] {
      assert (a + b)[1..] == a[1..] + b;
      RemoveFileAppend(a[1..], b, name);
    } else {
      assert a + b == b;
    }
  }

  // ---------------------------------------------------------------------
  // The send guard and title derivation

  /** `questionToSend || currentQuestion` */
  function AskedQuestion(questionToSend: Option<string>, currentQuestion: string): string
  {
    if questionToSend.Some? && questionToSend.value != "" then questionToSend.value else currentQuestion
  }

  /** The first guard of the send: a blank question and no attachments. */
  predicate NothingToSend(question: string, files: seq<Attachment>)
  {
    Trim(question) == "" && |files| == 0
  }

  /**
   * `isSendDisabled`: a turn is in flight, or the question is all white
   * space and nothing is attached.
   */
  function SendDisabled(question: string, files: seq<Attachment>, loading: bool): (r: bool)
    ensures r <==> loading || (|files| == 0 && forall k :: 0 <= k < |question| ==> IsSpace(question[k]))
    ensures !loading ==> (r <==> NothingToSend(question, files))
  {
    NothingToSend(question, files) || loading
  }

  /** The user message's text: the trimmed question, or a request to analyse the attachments. */
  function UserContent(question: string, files: seq<Attachment>): (r: string)
    ensures r != ""
    ensures Trim(question) != "" ==> r == Trim(question)
    ensures Trim(question) == "" ==> r == "Анализирай прикачените " + NatToString(|files|) + " файла."
  {
    var t := Trim(question);
    if t != "" then t else "Анализирай прикачените " + NatToString(|files|) + " файла."
  }

  const TitleWords := 5
  const Ellipsis := "..."

  /** The first five space-separated pieces of `t`, re-joined. */
  function TitleStem(t: string): string
  {
    Join(Take(Split(t), TitleWords))
  }

  /**
   * The title after a send: derived from the trimmed question when the chat
   * has no messages and the trimmed question is non-empty, else unchanged.
   */
  function DeriveTitle(chat: Chat, question: string): string
  {
    var t := Trim(question);
    if |chat.messages| == 0 && t != "" then
      var stem := TitleStem(t);
      if |t| > |stem| then stem + Ellipsis else stem
    else chat.title
  }

  /**
   * A derived title is a prefix of the trimmed question, the whole of it
   * when it has at most five pieces, followed by "..." exactly when it has
   * more; otherwise the title stays.
   */
  lemma TitleFacts(chat: Chat, question: string)
    ensures |chat.messages| != 0 || Trim(question) == "" ==> DeriveTitle(chat, question) == chat.title
    ensures var t := Trim(question); var stem := TitleStem(t);
      |chat.messages| == 0 && t != "" ==>
        && stem <= t
        && (|Split(t)| <= TitleWords ==> stem == t)
        && DeriveTitle(chat, question) == stem + (if |Split(t)| > TitleWords then Ellipsis else "")
  {
    var t := Trim(question);
    var ts := Split(t);
    JoinSplit(t);
    if |ts| <= TitleWords {
      assert Take(ts, TitleWords) == ts;
    } else {
      assert Take(ts, TitleWords) == ts[..TitleWords];
      JoinTakePrefix(ts, TitleWords);
    }
  }

  // ---------------------------------------------------------------------
  // Messages of a turn

  function UserMessage(content: string): Message
  {
    Message(None, User, content, [], false)
  }

  /** The model message a send appends before any fragment arrives. */
  const Placeholder := Message(None, Model, "", [], true)

  /** A fragment's update: appended to the content of the last message if that is a model message. */
  function AppendToLast(ms: seq<Message>, text: string): (r: seq<Message>)
    ensures |r| == |ms| && (|ms| > 0 ==> r[..|ms| - 1] == ms[..|ms| - 1])
  {
    if |ms| > 0 && ms[|ms| - 1].role == Model then
      ms[..|ms| - 1] + [ms[|ms| - 1].(content := ms[|ms| - 1].content + text)]
    else ms
  }

  /** Finalisation: the last message, if a model message, stops loading and gets the sources. */
  function FinalizeLast(ms: seq<Message>, sources: seq<Source>): (r: seq<Message>)
    ensures |r| == |ms| && (|ms| > 0 ==> r[..|ms| - 1] == ms[..|ms| - 1])
  {
    if |ms| > 0 && ms[|ms| - 1].role == Model then
      ms[..|ms| - 1] + [ms[|ms| - 1].(isLoading := false, sources := sources)]
    else ms
  }

  /** `messages.slice(0, -2)` */
  function DropLastTwo(ms: seq<Message>): (r: seq<Message>)
    ensures |ms| >= 2 ==> |r| == |ms| - 2 && r == ms[..|ms| - 2]
    ensures |ms| < 2 ==> r == []
  {
    if |ms| >= 2 then ms[..|ms| - 2] else []
  }

  /** Rollback removes exactly the two messages a send appended. */
  lemma RollbackExact(ms: seq<Message>, user: Message, answer: Message)
    ensures DropLastTwo(ms + [user, answer]) == ms
  {
    assert (ms + [user, answer])[..|ms|] == ms;
  }

  /** The text of all `textChunk` items, in order. */
  function Fragments(items: seq<StreamItem>): string
  {
    if items == [] then ""
    else
      var last := items[|items| - 1];
      Fragments(items[..|items| - 1]) + (if last.TextChunk? then last.text else "")
  }

  /** The sources of the last final item, or `[]` if there is none. */
  function LastSources(items: seq<StreamItem>): seq<Source>
  {
    if items == [] then []
    else if items[|items| - 1].Final? then items[|items| - 1].sources
    else LastSources(items[..|items| - 1])
  }

  /** The fragments of the service's text items spell out the whole upstream text. */
  lemma {:induction false} FragmentsOfTextItems(chunks: seq<ResponseChunk>)
    ensures Fragments(TextItems(chunks)) == AllText(chunks)
  {
    if chunks != [] {
      var init, last := chunks[..|chunks| - 1], chunks[|chunks| - 1];
      FragmentsOfTextItems(init);
      if last.text != "" {
        var items := TextItems(init) + [TextChunk(last.text)];
        assert items[..|items| - 1] == TextItems(init);
      } else {
        assert TextItems(chunks) == TextItems(init) + [] == TextItems(init);
        assert AllText(chunks) == AllText(init) + "" == AllText(init);
      }
    }
  }

  /**
   * For a stream that completes, the answer's text is all upstream text
   * and its sources are those of the final item.
   */
  lemma CompletedStream(apiKey: string, upstream: Upstream)
    requires apiKey != "" && upstream.ending == Completed
    ensures var items := Expected(apiKey, upstream).items;
      Fragments(items) == AllText(upstream.chunks) && LastSources(items) == UniqueSources(upstream.chunks)
  {
    var items := Expected(apiKey, upstream).items;
    assert items[..|items| - 1] == TextItems(upstream.chunks);
    FragmentsOfTextItems(upstream.chunks);
  }

  /** The error text shown for a failed send. */
  function FailureText(message: string): string
  {
    "Възникна грешка: " + message
  }

  /** Whether a send gets past both guards. */
  predicate Sends(question: string, files: seq<Attachment>, currentChatId: Option<string>)
  {
    !NothingToSend(question, files) && Truthy(currentChatId)
  }

  /** The title the send gives the chats with id `id`: derived from the first of them. */
  function TitleAfterSend(chats: seq<Chat>, id: string, question: string): string
  {
    match FindChat(chats, Some(id))
    case Some(c) => DeriveTitle(c, question)
    case None => ""
  }

  /** The updates the send makes to the chats with the current id. */
  datatype TurnEdit =
    | Open(title: string, user: Message)   // new title, user message appended
    | AddPlaceholder                        // the loading model message appended
    | AddFragment(text: string)             // a fragment appended to the last model message
    | Finish(sources: seq<Source>)          // the last model message finalised
    | Rollback                              // `slice(0, -2)`

  function Edit(c: Chat, e: TurnEdit): Chat
  {
    match e
    case Open(title, user) => c.(title := title, messages := c.messages + [user])
    case AddPlaceholder => c.(messages := c.messages + [Placeholder])
    case AddFragment(text) => c.(messages := AppendToLast(c.messages, text))
    case Finish(sources) => c.(messages := FinalizeLast(c.messages, sources))
    case Rollback => c.(messages := DropLastTwo(c.messages))
  }

  /** `prev.map(chat => chat.id === id ? <edit>(chat) : chat)` */
  function EditChats(chats: seq<Chat>, id: string, e: TurnEdit): (r: seq<Chat>)
    ensures |r| == |chats|
    ensures forall k :: 0 <= k < |r| ==> r[k] == if chats[k].id == id then Edit(chats[k], e) else chats[k]
  {
    seq(|chats|, k requires 0 <= k < |chats| => if chats[k].id == id then Edit(chats[k], e) else chats[k])
  }

  /** The chat `c` with a new title and two messages appended. */
  function Answered(c: Chat, title: string, user: Message, answer: Message): Chat
  {
    c.(title := title, messages := c.messages + [user, answer])
  }

  /**
   * `now` is `before` with the chats of id `id` carrying `title` and the two
   * messages `user`, `answer` at the end, and every other chat untouched.
   */
  ghost predicate InFlight(before: seq<Chat>, now: seq<Chat>, id: string, title: string, user: Message, answer: Message)
  {
    && |now| == |before|
    && (forall k :: 0 <= k < |before| && before[k].id != id ==> now[k] == before[k])
    && (forall k :: 0 <= k < |before| && before[k].id == id ==> now[k] == Answered(before[k], title, user, answer))
  }

  /** The first optimistic update: nothing when no chat has the id. */
  function Opened(chats: seq<Chat>, id: string, question: string, user: Message): seq<Chat>
  {
    if FindChat(chats, Some(id)).Some? then EditChats(chats, id, Open(TitleAfterSend(chats, id, question), user)) else chats
  }

  /** The two optimistic appends put the user message and the placeholder behind the old messages. */
  lemma OpenSteps(before: seq<Chat>, id: string, question: string, user: Message)
    ensures InFlight(before, EditChats(Opened(before, id, question, user), id, AddPlaceholder),
                     id, TitleAfterSend(before, id, question), user, Placeholder)
  {
  }

  /** A fragment grows the content of the in-flight model message. */
  lemma FragmentTurn(before: seq<Chat>, now: seq<Chat>, id: string, title: string, user: Message, answer: Message, text: string)
    requires InFlight(before, now, id, title, user, answer) && answer.role == Model
    ensures InFlight(before, EditChats(now, id, AddFragment(text)), id, title, user, answer.(content := answer.content + text))
  {
    var next := EditChats(now, id, AddFragment(text));
    forall k | 0 <= k < |before| && before[k].id == id
      ensures next[k] == Answered(before[k], title, user, answer.(content := answer.content + text))
    {
      var ms := before[k].messages + [user, answer];
      assert ms[..|ms| - 1] == before[k].messages + [user];
    }
  }

  /** Finalisation stops the in-flight model message loading and gives it the sources. */
  lemma FinishTurn(before: seq<Chat>, now: seq<Chat>, id: string, title: string, user: Message, answer: Message, sources: seq<Source>)
    requires InFlight(before, now, id, title, user, answer) && answer.role == Model
    ensures InFlight(before, EditChats(now, id, Finish(sources)), id, title, user, answer.(isLoading := false, sources := sources))
  {
    var next := EditChats(now, id, Finish(sources));
    forall k | 0 <= k < |before| && before[k].id == id
      ensures next[k] == Answered(before[k], title, user, answer.(isLoading := false, sources := sources))
    {
      var ms := before[k].messages + [user, answer];
      assert ms[..|ms| - 1] == before[k].messages + [user];
    }
  }

  /** Rollback gives every chat back its messages; the retitled chats keep the new title. */
  lemma RollbackTurn(before: seq<Chat>, now: seq<Chat>, id: string, title: string, user: Message, answer: Message)
    requires InFlight(before, now, id, title, user, answer)
    ensures var next := EditChats(now, id, Rollback);
      && |next| == |before|
      && (forall k :: 0 <= k < |before| && before[k].id != id ==> next[k] == before[k])
      && (forall k :: 0 <= k < |before| && before[k].id == id ==> next[k] == before[k].(title := title))
  {
    var next := EditChats(now, id, Rollback);
    forall k | 0 <= k < |before| && before[k].id == id ensures next[k] == before[k].(title := title) {
      RollbackExact(before[k].messages, user, answer);
    }
  }

  /**
   * The application component's own state cells, beside the chat store
   * they drive.
   */
  class ChatApp {
    const history: ChatStore
    var question: string
    var files: seq<Attachment>
    var loading: bool
    var error: string

    constructor (history: ChatStore)
      ensures this.history == history
      ensures question == "" && files == [] && !loading && error == ""
    {
      this.history := history;
      question, files, loading, error := "", [], false, "";
    }

    /** `handleTranscript` */
    method HandleTranscript(transcript: string)
      modifies this`question
      ensures question == AppendTranscript(old(question), transcript)
    {
      question := AppendTranscript(question, transcript);
    }

    /** `handleFileChange`, with `None` for an event without a file list. */
    method HandleFileChange(picked: Option<seq<Attachment>>)
      modifies this`files, this`error
      ensures picked.Some? ==> files == AddFiles(old(files), picked.value) && error == ""
      ensures picked.None? ==> files == old(files) && error == old(error)
    {
      if picked.Some? {
        files := AddFiles(files, picked.value);
        error := "";
      }
    }

    /** `handleRemoveFile` */
    method HandleRemoveFile(name: string)
      modifies this`files
      ensures files == RemoveFile(old(files), name)
    {
      files := RemoveFile(files, name);
    }

    /** `handleNewChat`: a new chat, and the input cleared. */
    method HandleNewChat()
      modifies this`question, this`files, this`error, history`chats, history`currentChatId, history`clock
      ensures history.chats == [EmptyChat(ChatIdAt(old(history.clock)))] + old(history.chats)
      ensures history.currentChatId == Some(ChatIdAt(old(history.clock)))
      ensures question == "" && files == [] && error == ""
    {
      history.CreateNewChat();
      question, files, error := "", [], "";
    }

    /** The two optimistic updates: the user message (and title), then the placeholder. */
    method BeginTurn(id: string, question: string, user: Message)
      modifies history`chats
      ensures InFlight(old(history.chats), history.chats, id, TitleAfterSend(old(history.chats), id, question), user, Placeholder)
    {
      ghost var before := history.chats;
      var target := FindChat(history.chats, Some(id));
      if target.Some? {
        var newTitle := DeriveTitle(target.value, question);
        history.SetChats(EditChats(history.chats, id, Open(newTitle, user)));
      }
      assert history.chats == Opened(before, id, question, user);
      history.SetChats(EditChats(history.chats, id, AddPlaceholder));
      OpenSteps(before, id, question, user);
    }

    /** The `for await` loop: each non-empty fragment appended to the in-flight answer. */
    method ApplyItems(ghost before: seq<Chat>, id: string, ghost title: string, ghost user: Message, items: seq<StreamItem>)
        returns (finalSources: seq<Source>)
      requires InFlight(before, history.chats, id, title, user, Placeholder)
      modifies history`chats
      ensures InFlight(before, history.chats, id, title, user, Placeholder.(content := Fragments(items)))
      ensures finalSources == LastSources(items)
    {
      finalSources := [];
      var i := 0;
      while i < |items|
        invariant 0 <= i <= |items|
        invariant InFlight(before, history.chats, id, title, user, Placeholder.(content := Fragments(items[..i])))
        invariant finalSources == LastSources(items[..i])
      {
        var item := items[i];
        assert items[..i + 1][..i] == items[..i];
        assert Fragments(items[..i + 1]) == Fragments(items[..i]) + (if item.TextChunk? then item.text else "");
        if item.TextChunk? && item.text != "" {
          FragmentTurn(before, history.chats, id, title, user, Placeholder.(content := Fragments(items[..i])), item.text);
          history.SetChats(EditChats(history.chats, id, AddFragment(item.text)));
        }
        else {
          assert Fragments(items[..i + 1]) == Fragments(items[..i]);
        }
        if item.Final? {
          finalSources := item.sources;
        }
        i := i + 1;
      }
      assert items[..i] == items;
    }

    /**
     * `handleSendMessage`. The upstream response and the API key are
     * parameters; the service's items are applied one at a time, then the
     * turn is finalised, or rolled back when the service threw.
     */
    method SendMessage(questionToSend: Option<string>, apiKey: string, upstream: Upstream)
      modifies this`question, this`files, this`loading, this`error, history`chats
      ensures var q := AskedQuestion(questionToSend, old(question));
        !Sends(q, old(files), old(history.currentChatId)) ==>
          && history.chats == old(history.chats)
          && question == old(question) && files == old(files)
          && loading == old(loading) && error == old(error)
      ensures var q := AskedQuestion(questionToSend, old(question));
        Sends(q, old(files), old(history.currentChatId)) && Expected(apiKey, upstream).error.None? ==>
          var id := old(history.currentChatId).value;
          var user := UserMessage(UserContent(q, old(files)));
          var answer := Message(None, Model, AllText(upstream.chunks), UniqueSources(upstream.chunks), false);
          && InFlight(old(history.chats), history.chats, id, TitleAfterSend(old(history.chats), id, q), user, answer)
          && question == "" && files == [] && error == "" && !loading
      ensures var q := AskedQuestion(questionToSend, old(question));
        Sends(q, old(files), old(history.currentChatId)) && Expected(apiKey, upstream).error.Some? ==>
          var id := old(history.currentChatId).value;
          var title := TitleAfterSend(old(history.chats), id, q);
          && |history.chats| == |old(history.chats)|
          && (forall k :: 0 <= k < |history.chats| && old(history.chats)[k].id != id ==>
                history.chats[k] == old(history.chats)[k])
          && (forall k :: 0 <= k < |history.chats| && old(history.chats)[k].id == id ==>
                history.chats[k] == old(history.chats)[k].(title := title))
          && question == q && files == old(files)
          && error == FailureText(Expected(apiKey, upstream).error.value) && !loading
    {
      var q := AskedQuestion(questionToSend, question);
      if Trim(q) == "" && |files| == 0 {
        return;
      }
      if !Truthy(history.currentChatId) {
        return;
      }
      var id := history.currentChatId.value;
      var user := UserMessage(UserContent(q, files));
      var filesToSend := files;
      ghost var before := history.chats;
      ghost var title := TitleAfterSend(before, id, q);
      BeginTurn(id, q, user);
      question, files, loading, error := "", [], true, "";

      var items, failure := ChatResponseStream(apiKey, q, upstream);
      var finalSources := ApplyItems(before, id, title, user, items);
      if failure.Some? {
        error := FailureText(failure.value);
        RollbackTurn(before, history.chats, id, title, user, Placeholder.(content := Fragments(items)));
        history.SetChats(EditChats(history.chats, id, Rollback));
        question, files := q, filesToSend;
      } else {
        FinishTurn(before, history.chats, id, title, user, Placeholder.(content := Fragments(items)), finalSources);
        history.SetChats(EditChats(history.chats, id, Finish(finalSources)));
        CompletedStream(apiKey, upstream);
      }
      loading := false;
    }
  }
}
