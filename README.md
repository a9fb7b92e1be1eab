# Conversation state engine of the elevator-technician chat client

This project models, in Dafny, the part of the chat client that owns the
conversation state:

- **The chat store** (`hooks/useChatHistory.ts`). It holds an ordered list of
  chats and the id of the current chat. Its operations are `createNewChat`,
  `deleteChat`, `renameChat` and the `currentChat` lookup. A startup resolver
  picks the first usable of three sources: a shared chat in the location
  hash, the saved snapshot in the `chatState` storage slot, or one fresh
  chat. A persistence rule either writes the state to the slot or clears it.
- **The turn protocol** (`App.tsx`). It covers the send guard and the title
  derived from the first five words of the question. It then appends the
  user message and a loading model placeholder, merges the streamed
  fragments into that placeholder, and either finalises it with its sources
  or, on failure, rolls back both messages and restores the question and
  attachments. Beside it are the input helpers: the voice-transcript merge,
  the attachment list deduplicated by name, removal by name, and the
  disabled state of the send button.
- **Stream shaping** (`services/geminiService.ts`). The API-key guard comes
  first. Then each upstream chunk with text becomes one `textChunk` item. The
  grounding sources are collected into an insertion-ordered map keyed by
  uri, where the first citation wins and an empty title falls back to the
  uri. One final item carries the map's values. An upstream failure becomes
  one fixed error.

Files:

- `base.dfy`: `Option`, `Source`, JavaScript truthiness of an optional string.
- `text.dfy`: `trim`, `split(' ')`, `join(' ')`, `slice(0, n)`, and decimal
  rendering of numbers.
- `js_maps.dfy`: a JavaScript `Map` with string keys, which remembers
  insertion order.
- `chat_history.dfy`: messages, chats, the pure list updates, the share
  import, the slot and snapshot rules, and the `ChatStore` class with the
  hook's state cells.
- `gemini_service.dfy`: the upstream model, the item sequence it produces,
  and the streaming method proved against it.
- `app.dfy`: the input helpers, title derivation, the turn edits, and the
  `ChatApp` class with the component's state cells and `SendMessage`.

Stateful parts are classes whose methods change only their named fields. The
list transforms are pure functions with lemmas. Each loop in the source is a
Dafny loop with invariants:

- the generator's `for await` with its nested `forEach`;
- the send's `for await` over the yielded items.

The environment enters through parameters:

- the API key;
- the upstream response, as a finite sequence of chunks and how it ends;
- the share-token decoder, as a function `string -> Option<ShareData>`;
- the clock, as a `clock` field that each id reading advances.

## Model

| member | source | states |
|---|---|---|
| Text.Trim | App.tsx:35 | `trim()` returns the infix of the input left once the white space at both ends is removed; the result has no white space at either end, and it is empty exactly when the input is all white space |
| Text.JoinSplit | App.tsx:104 | re-joining with `' '` the pieces of `split(' ')` gives back the original string |
| Text.JoinTakePrefix | App.tsx:104 | joining the first k pieces gives a prefix of joining all of them, and a strictly shorter one when pieces are dropped |
| Text.NatToStringInjective | hooks/useChatHistory.ts:39 | distinct numbers render to distinct decimal strings |
| ChatHistory.FindChat | hooks/useChatHistory.ts:133 | `find` succeeds exactly when the id is set and some chat carries it, and then returns the first such chat |
| ChatHistory.ChatStore.CurrentChat | hooks/useChatHistory.ts:133 | in a consistent store, the current chat exists, belongs to the list and carries the current id |
| ChatHistory.RemoveChat | hooks/useChatHistory.ts:108 | the filtered list holds exactly the chats whose id differs, and it is no longer than the input |
| ChatHistory.RemoveChatAppend | hooks/useChatHistory.ts:108 | filtering a concatenation filters each part and keeps their order |
| ChatHistory.RemoveAbsentChat | hooks/useChatHistory.ts:106-121 | deleting an id no chat carries leaves the list identical |
| ChatHistory.RemoveKeepsConsistent | hooks/useChatHistory.ts:106-121 | after the filter, ids stay non-empty; if another chat was current, it is still found; otherwise the first remaining chat is found |
| ChatHistory.NormalizeTitle | hooks/useChatHistory.ts:128 | a renamed title is never empty and has no white space at either end; it is the trimmed input, or "Нов чат" exactly when the input is all white space |
| ChatHistory.RenameFacts | hooks/useChatHistory.ts:125-131 | renaming keeps the length, every id and every message list; the chats with the id get the normalised title; all other chats are unchanged |
| ChatHistory.ImportMessages | hooks/useChatHistory.ts:37-40 | every shared message is kept, in order, with only its id replaced by `role-stamp-index` |
| ChatHistory.ImportChat | hooks/useChatHistory.ts:33-41 | the imported chat has a fresh chat id and the title "Споделено: " + title; it has as many messages as were shared, each keeping its role, content, sources and loading flag |
| ChatHistory.ImportedIdsUnique | hooks/useChatHistory.ts:37-40 | the regenerated message ids of one import are pairwise distinct |
| ChatHistory.LoadSnapshot | hooks/useChatHistory.ts:64-78 | a snapshot is accepted exactly when `chats` is a non-empty array and `currentChatId` is truthy; an accepted snapshot is what the slot holds; only text that does not parse is removed from the slot |
| ChatHistory.SaveThenLoad | hooks/useChatHistory.ts:86-97 | whatever the persistence rule writes, the resolver's snapshot step reads back unchanged: a snapshot exists exactly when there are chats and a truthy current id |
| ChatHistory.AcceptedShare | hooks/useChatHistory.ts:26-50 | the share step succeeds exactly when the hash starts with `#share=`, the token decodes, the title is truthy, `messages` is an array and the slot parses; the saved chats beside the import are the slot's array, or `[]` |
| ChatHistory.ChatStore.constructor | hooks/useChatHistory.ts:20-21 | the hook starts with no chats and no current id |
| ChatHistory.ChatStore.Bootstrap | hooks/useChatHistory.ts:23-84 | share case: `[imported] ++ saved` with the import current and the hash stripped. Snapshot case: the saved state. Otherwise: one fresh "Нов чат" chat, current, with an unparsable slot removed. After a share or a fresh chat, the current chat is the first one |
| ChatHistory.ChatStore.Persist | hooks/useChatHistory.ts:86-97 | the slot holds `{chats, currentChatId}` when there are chats and a truthy current id and the write succeeds; a failing write leaves the slot as it was; without chats or a truthy current id the slot is emptied |
| ChatHistory.ChatStore.CreateNewChat | hooks/useChatHistory.ts:99-104 | an empty "Нов чат" chat with a fresh id goes in front of the unchanged old list and becomes current; a store whose ids are non-empty becomes consistent |
| ChatHistory.ChatStore.DeleteChat | hooks/useChatHistory.ts:106-122 | another chat current: the list is filtered and the current id is kept. Current chat deleted, others remain: the first remaining chat becomes current. Last chat deleted: exactly one fresh "Нов чат" chat, current. Deleting the current chat never leaves zero chats, and consistency is preserved |
| ChatHistory.ChatStore.RenameChat | hooks/useChatHistory.ts:125-131 | the list becomes the renamed list, and consistency is preserved |
| GeminiService.SourceOf | services/geminiService.ts:82-85 | a source keeps the grounding uri; its title is the grounding title, or the uri when that title is empty |
| GeminiService.GatheredKeys | services/geminiService.ts:79-87 | a uri is in the map exactly when some grounding entry with a `web` part and a non-empty uri cites it; entries without either contribute nothing |
| GeminiService.GatheredFirst | services/geminiService.ts:81-85 | each uri maps to the source of the first entry that cites it |
| GeminiService.GatheredOrder | services/geminiService.ts:72-87 | the map's keys are in first-citation order |
| GeminiService.UniqueSourcesFacts | services/geminiService.ts:72-90 | the final sources are pairwise distinct by uri; each is the source of the first citation of its uri; they come in first-citation order; every usable grounding entry's uri is among them |
| GeminiService.TextItemsFacts | services/geminiService.ts:74-77 | there is one text item per upstream chunk with non-empty text, and each item's text is non-empty |
| GeminiService.ChatResponseStream | services/geminiService.ts:25-95 | the items and error are exactly the reference response. Missing key: no item and the key error. Upstream failure: only text items and the fixed service error. Completion: non-empty text items and exactly one final item, last, with the deduplicated sources |
| App.AppendTranscript | App.tsx:34-36 | the merged question is the trimmed old question, a single space and the transcript when the trimmed question is non-empty, and the transcript alone otherwise |
| App.DictationJoins | App.tsx:34-36 | utterances with no surrounding white space, dictated one after another into a blank question, give them joined by single spaces |
| App.AddFilesFacts | App.tsx:67-75 | after picking, names are pairwise distinct; each name holds its last file and sits in the order of first occurrences |
| App.AddFilesComplete | App.tsx:70-72 | every name among the old and the new files is in the attachment list |
| App.RemoveFile | App.tsx:77-79 | removal keeps exactly the files with another name |
| App.RemoveFileAppend | App.tsx:78 | removal from a concatenation removes from each part and keeps their order |
| App.SendDisabled | App.tsx:186 | the button is disabled exactly when a turn is loading, or nothing is attached and the question is all white space |
| App.UserContent | App.tsx:90 | the user message is never empty; it is the trimmed question whenever that is non-empty, and "Анализирай прикачените N файла." with N the number of attachments otherwise |
| App.TitleFacts | App.tsx:101-106 | the title changes only for a chat without messages and a non-blank question; it is then a prefix of the trimmed question, the whole of it when that has at most five pieces, followed by "..." exactly when it has more |
| App.RollbackExact | App.tsx:167-171 | `slice(0, -2)` after the two optimistic appends gives back the pre-send messages |
| App.FragmentsOfTextItems | App.tsx:131-147 | the fragments the send receives spell out all upstream text, in order |
| App.CompletedStream | App.tsx:126-159 | for a completed stream, the text the answer gets is all upstream text, and its sources are those of the last final item |
| App.OpenSteps | App.tsx:96-125 | right after the two optimistic appends, the target chats hold their old messages plus the user message and the placeholder, with the derived title; every other chat is unchanged |
| App.FragmentTurn | App.tsx:133-143 | merging a fragment extends the content of the in-flight answer and changes nothing else |
| App.FinishTurn | App.tsx:149-159 | finalisation stops the answer loading and sets its sources, and changes nothing else |
| App.RollbackTurn | App.tsx:167-171 | after rollback every chat has its pre-send messages back; only the target chats keep the derived title |
| App.ChatApp.constructor | App.tsx:14-17 | the component starts with no question, no attachments, no error and nothing loading |
| App.ChatApp.HandleTranscript | App.tsx:34-36 | the question becomes the merged question |
| App.ChatApp.HandleFileChange | App.tsx:67-75 | with a file list, the attachments are deduplicated by name and the error is cleared; without one, nothing changes |
| App.ChatApp.HandleRemoveFile | App.tsx:77-79 | the attachments lose every file of that name |
| App.ChatApp.HandleNewChat | App.tsx:179-184 | a new current chat is put in front, and the question, attachments and error are cleared |
| App.ChatApp.BeginTurn | App.tsx:96-125 | the list holds the optimistic state: target chats retitled with the user message and the placeholder appended, all others unchanged |
| App.ChatApp.ApplyItems | App.tsx:131-148 | after the loop, the answer's content is the concatenation of all text fragments, and the kept sources are those of the last final item |
| App.ChatApp.SendMessage | App.tsx:81-177 | guard fails (blank question and no files, or no current chat): nothing changes. Completion: each target chat ends with the user message and an answer holding all upstream text and the deduplicated sources, no longer loading; other chats unchanged; input cleared. Failure: every chat has its old messages back, the target chats keep the derived title, the question and files are restored, the error is shown |

## Left out

- Rendering, markdown, scrolling, textarea resizing and focus handling are
  UI. The sidebar, the attachment chips and the speech-recognition hook are
  not part of this model. So the `isListening` stop before a send and the
  example-question buttons are left out.
- `localStorage` is the `slot` field of the store. JSON text is a parsed value
  or `Unparsable`. An empty stored string is treated like an absent slot,
  because both are falsy in the source.
- Decoding the share token (base64, `escape`, `decodeURIComponent`,
  `JSON.parse`) is the parameter `decode`. The source has no encoder, so
  there is no share round trip to prove. Stripping the hash
  (`history.replaceState`) is modelled as setting `hash` to "".
- `Date.now()` is the `clock` field, and each id reading advances it by one.
  So the model never produces the duplicate ids the source can produce for
  two chats created within one millisecond.
- ChatHistory.ChatStore.Bootstrap: uses one clock reading for the chat id and
  all imported message ids, where the source reads the clock once per
  message.
- Shared messages are taken as well-typed `Message` values. Absent `sources`
  and `isLoading` fields are `[]` and `false`. Messages built by the send
  have no id (`None`), as in the source.
- The Gemini client call, the prompt text, the model name, search tools and
  `fileToBase64` are foreign calls and I/O. The upstream is given as chunks
  plus an ending. A request that fails outright is `Upstream([], Failed)`.
- GeminiService.ChatResponseStream: an error raised while files are read
  into base64 is left out; that happens before the `try`, and it would
  surface as that raw error.
- App.ChatApp.SendMessage: the fallback message "Възникна неочаквана
  грешка." for a thrown non-`Error` value is not modelled. The only such
  value is the FileReader error event with which `fileToBase64` rejects,
  and reading the attachments is left out (see the line above).
- App.ChatApp.ApplyItems, App.ChatApp.SendMessage: when several chats carry
  the current id, the source puts one shared placeholder object into all of
  them and appends each fragment to it once per such chat, so with two such
  chats and fragments "A", "B" both show "AABB". The model copies the
  placeholder and each of those chats gets the text once ("AB"); the
  completion contract is therefore only faithful when one chat carries the
  current id, which holds for every list the store builds itself but not
  for an arbitrary saved snapshot.
- React scheduling, batched updates, stale closures and interleaving with
  other handlers are left out. Each handler is one atomic sequential step,
  and the items are applied in order.
- The source mutates the last message in place. The model copies it instead.
  So the model also leaves out aliasing with the previous state, and the
  double-append a re-run updater would cause.
- Strings are sequences of code points, not UTF-16 code units.

The model follows the code in these places, where its behaviour is narrower
than its general description suggests:

- A saved snapshot is accepted even when its `currentChatId` names no chat
  in it. The store is then not consistent in the model's sense, because
  `currentChat` is `undefined`.
- After a rollback, a chat that was retitled by the send keeps the derived
  title although its messages are restored.
- The title is derived for any chat without messages, also one that was
  renamed away from "Нов чат" before its first send; the check is on the
  message count only (App.tsx:101-106).
- If the slot holds text that does not parse, the share step throws while
  reading the saved chats. The resolver then falls through to the snapshot
  step, which removes the slot and creates a fresh chat.
