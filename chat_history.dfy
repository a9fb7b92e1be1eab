/**
 * The chat store: the ordered list of chats and the id of the current one,
 * the list updates behind `createNewChat`, `deleteChat` and `renameChat`,
 * the startup resolver (shared link, saved snapshot, fresh chat) and the
 * rule that keeps the saved snapshot in step with the state.
 */
module ChatHistory {
  import opened Base
  import opened Text

  datatype Role = User | Model

  /** The role as it is spelled in messages and in imported message ids. */
  function RoleName(r: Role): (s: string)
    ensures s != ""
  {
    match r
    case User => "user"
    case Model => "model"
  }

  /**
   * One message. `id` is absent on the messages the send protocol builds;
   * an absent `sources` is `[]` and an absent `isLoading` is `false`.
   */
  datatype Message = Message(id: Option<string>, role: Role, content: string, sources: seq<Source>, isLoading: bool)

  datatype Chat = Chat(id: string, title: string, messages: seq<Message>)

  const DefaultTitle := "Нов чат"
  const SharedPrefix := "Споделено: "
  const ShareTag := "#share="

  /** The id `chat-${Date.now()}` for the clock reading `stamp`. */
  function ChatIdAt(stamp: nat): (id: string)
    ensures id != ""
  {
    "chat-" + NatToString(stamp)
  }

  /** A chat with the default title and no messages. */
  function EmptyChat(id: string): Chat
  {
    Chat(id, DefaultTitle, [])
  }

  /** The index of the first chat with id `id`, or `|chats|` when there is none. */
  function ChatIndex(chats: seq<Chat>, id: string): (k: nat)
    ensures k <= |chats|
    ensures forall j :: 0 <= j < k ==> chats[j].id != id
    ensures k < |chats| ==> chats[k].id == id
  {
    if chats == [] then 0 else if chats[0].id == id then 0 else 1 + ChatIndex(chats[1..], id)
  }

  /**
   * `chats.find(chat => chat.id === id)`: the first chat with that id, and
   * nothing when the id is absent or no chat carries it.
   */
  function FindChat(chats: seq<Chat>, id: Option<string>): (r: Option<Chat>)
    ensures r.Some? <==> id.Some? && exists k :: 0 <= k < |chats| && chats[k].id == id.value
    ensures r.Some? ==> r.value.id == id.value && r.value == chats[ChatIndex(chats, id.value)]
  {
    if id.None? then None
    else
      var k := ChatIndex(chats, id.value);
      if k < |chats| then Some(chats[k]) else None
  }

  /** `chats.filter(chat => chat.id !== id)` */
  function RemoveChat(chats: seq<Chat>, id: string): (r: seq<Chat>)
    ensures |r| <= |chats|
    ensures forall c :: c in r <==> c in chats && c.id != id
  {
    if chats == [] then []
    else (if chats[0].id == id then [] else [chats[0]]) + RemoveChat(chats[1..], id)
  }

  /** Every chat has a non-empty id, and the current id names one of them. */
  ghost predicate ConsistentState(chats: seq<Chat>, currentChatId: Option<string>)
  {
    && (forall k :: 0 <= k < |chats| ==> chats[k].id != "")
    && FindChat(chats, currentChatId).Some?
  }

  /**
   * Deleting a chat keeps the store consistent: with the same current id
   * when another chat was current, with the first remaining chat otherwise.
   */
  lemma RemoveKeepsConsistent(chats: seq<Chat>, currentChatId: Option<string>, id: string)
    requires ConsistentState(chats, currentChatId)
    ensures var r := RemoveChat(chats, id);
      && (currentChatId != Some(id) ==> ConsistentState(r, currentChatId))
      && (currentChatId == Some(id) && |r| > 0 ==> ConsistentState(r, Some(r[0].id)))
  {
    var r := RemoveChat(chats, id);
    forall k | 0 <= k < |r| ensures r[k].id != "" {
      assert r[k] in chats;
    }
    if currentChatId != Some(id) {
      var c := chats[ChatIndex(chats, currentChatId.value)];
      assert c in r;
    }
  }

  /** Filtering a concatenation filters each part and keeps their order. */
  lemma {:induction false} RemoveChatAppend(a: seq<Chat>, b: seq<Chat>, id: string)
    ensures RemoveChat(a + b, id) == RemoveChat(a, id) + RemoveChat(b, id)
  {
    if a != [] {
      assert (a + b)[1..] == a[1..] + b;
      RemoveChatAppend(a[1..], b, id);
    } else {
      assert a + b == b;
    }
  }

  /** Removing an id that no chat carries leaves the list as it is. */
  lemma {:induction false} RemoveAbsentChat(chats: seq<Chat>, id: string)
    requires forall k :: 0 <= k < |chats| ==> chats[k].id != id
    ensures RemoveChat(chats, id) == chats
  {
    if chats != [] {
      RemoveAbsentChat(chats[1..], id);
    }
  }

  /**
   * `newTitle.trim() || "Нов чат"`: never empty, no white space at either
   * end, and the trimmed input unless that is empty.
   */
  function NormalizeTitle(title: string): (r: string)
    ensures r != "" && !IsSpace(r[0]) && !IsSpace(r[|r| - 1])
    ensures r == Trim(title) || (r == DefaultTitle && forall k :: 0 <= k < |title| ==> IsSpace(title[k]))
  {
    var t := Trim(title);
    if t != "" then t else DefaultTitle
  }

  /** The list update of `renameChat`: `prev.map(chat => chat.id === id ? { ...chat, title: ... } : chat)`. */
  function RenameChats(chats: seq<Chat>, id: string, title: string): seq<Chat>
  {
    seq(|chats|, k requires 0 <= k < |chats| =>
      if chats[k].id == id then chats[k].(title := NormalizeTitle(title)) else chats[k])
  }

  /** Renaming changes only the titles of the chats with that id, and no messages. */
  lemma RenameFacts(chats: seq<Chat>, id: string, title: string)
    ensures var r := RenameChats(chats, id, title);
      && |r| == |chats|
      && (forall k :: 0 <= k < |r| ==> r[k].id == chats[k].id && r[k].messages == chats[k].messages)
      && (forall k :: 0 <= k < |r| && chats[k].id == id ==> r[k].title == NormalizeTitle(title))
      && (forall k :: 0 <= k < |r| && chats[k].id != id ==> r[k] == chats[k])
  {
  }

  /** What a share link decodes to: its `title` ("" when falsy) and its `messages`, if an array. */
  datatype ShareData = ShareData(title: string, messages: Option<seq<Message>>)

  /** The id given to the `index`-th imported message: `${role}-${Date.now()}-${index}`. */
  function ImportedMessageId(role: Role, stamp: nat, index: nat): string
  {
    RoleName(role) + "-" + NatToString(stamp) + "-" + NatToString(index)
  }

  /** The shared messages with fresh ids; everything else about them is kept. */
  function ImportMessages(ms: seq<Message>, stamp: nat): (r: seq<Message>)
    ensures |r| == |ms|
    ensures forall i :: 0 <= i < |r| ==>
      r[i] == ms[i].(id := Some(ImportedMessageId(ms[i].role, stamp, i)))
  {
    seq(|ms|, i requires 0 <= i < |ms| => ms[i].(id := Some(ImportedMessageId(ms[i].role, stamp, i))))
  }

  /** The chat a well-formed share link installs. */
  function ImportChat(title: string, ms: seq<Message>, stamp: nat): (c: Chat)
    ensures c.id == ChatIdAt(stamp)
    ensures c.title == SharedPrefix + title
    ensures |c.messages| == |ms|
    ensures forall i :: 0 <= i < |ms| ==>
      && c.messages[i].role == ms[i].role && c.messages[i].content == ms[i].content
      && c.messages[i].sources == ms[i].sources && c.messages[i].isLoading == ms[i].isLoading
  {
    Chat(ChatIdAt(stamp), SharedPrefix + title, ImportMessages(ms, stamp))
  }

  /** The regenerated ids of one import are pairwise distinct. */
  lemma ImportedIdsUnique(ms: seq<Message>, stamp: nat)
    ensures var r := ImportMessages(ms, stamp);
      forall i, j :: 0 <= i < j < |r| ==> r[i].id != r[j].id
  {
    var r := ImportMessages(ms, stamp);
    forall i, j | 0 <= i < j < |r| ensures r[i].id != r[j].id {
      var a, b := ImportedMessageId(ms[i].role, stamp, i), ImportedMessageId(ms[j].role, stamp, j);
      if ms[i].role == ms[j].role {
        var p := RoleName(ms[i].role) + "-" + NatToString(stamp) + "-";
        assert a == p + NatToString(i) && b == p + NatToString(j);
        if a == b {
          assert NatToString(i) == a[|p|..] == b[|p|..] == NatToString(j);
          NatToStringInjective(i, j);
        }
      } else {
        assert a[0] == RoleName(ms[i].role)[0] != RoleName(ms[j].role)[0] == b[0];
      }
    }
  }

  /** What the storage slot `chatState` holds: text that does not parse, or a parsed object. */
  datatype SlotValue =
    | Unparsable
    | Stored(chats: Option<seq<Chat>>, currentChatId: Option<string>)

  /** A snapshot the resolver accepts. */
  datatype Snapshot = Snapshot(chats: seq<Chat>, currentChatId: string)

  /** The outcome of reading the slot: the accepted snapshot, if any, and what is left in the slot. */
  datatype Loaded = Loaded(snapshot: Option<Snapshot>, slot: Option<SlotValue>)

  /**
   * The resolver's second step: a parsed object is accepted when `chats` is a
   * non-empty array and `currentChatId` is truthy; text that does not parse
   * is removed from the slot; anything else is left where it is.
   */
  function LoadSnapshot(slot: Option<SlotValue>): (l: Loaded)
    ensures l.snapshot.Some? <==>
      slot.Some? && slot.value.Stored? && slot.value.chats.Some? && |slot.value.chats.value| > 0
      && Truthy(slot.value.currentChatId)
    ensures l.snapshot.Some? ==>
      slot == Some(Stored(Some(l.snapshot.value.chats), Some(l.snapshot.value.currentChatId)))
    ensures l.slot == if slot == Some(Unparsable) then None else slot
  {
    match slot
    case None => Loaded(None, None)
    case Some(Unparsable) => Loaded(None, None)
    case Some(Stored(cs, id)) =>
      if cs.Some? && |cs.value| > 0 && Truthy(id) then Loaded(Some(Snapshot(cs.value, id.value)), slot)
      else Loaded(None, slot)
  }

  /** The persistence rule: the state is written when there are chats and a truthy current id, else the slot is cleared. */
  function SaveSlot(chats: seq<Chat>, currentChatId: Option<string>): Option<SlotValue>
  {
    if |chats| > 0 && Truthy(currentChatId) then Some(Stored(Some(chats), currentChatId)) else None
  }

  /** Whatever the persistence rule writes, the resolver's second step reads back unchanged. */
  lemma SaveThenLoad(chats: seq<Chat>, currentChatId: Option<string>)
    ensures var l := LoadSnapshot(SaveSlot(chats, currentChatId));
      && (l.snapshot.Some? <==> |chats| > 0 && Truthy(currentChatId))
      && (l.snapshot.Some? ==> l.snapshot.value == Snapshot(chats, currentChatId.value))
  {
  }

  /**
   * The chats the shared chat is put in front of: the saved `chats` when it
   * is an array, `[]` when the slot is empty or holds no array, and nothing
   * when the slot does not parse (the share step then throws and is abandoned).
   */
  function ChatsBesideImport(slot: Option<SlotValue>): Option<seq<Chat>>
  {
    match slot
    case None => Some([])
    case Some(Unparsable) => None
    case Some(Stored(cs, _)) => Some(if cs.Some? then cs.value else [])
  }

  /** The shared chat data and the chats beside it, when the resolver's first step succeeds. */
  function AcceptedShare(hash: string, decode: string -> Option<ShareData>, slot: Option<SlotValue>)
    : (r: Option<(ShareData, seq<Chat>)>)
    ensures r.Some? <==>
      && ShareTag <= hash && decode(hash[|ShareTag|..]).Some?
      && decode(hash[|ShareTag|..]).value.title != "" && decode(hash[|ShareTag|..]).value.messages.Some?
      && ChatsBesideImport(slot).Some?
    ensures r.Some? ==>
      && ShareTag <= hash && decode(hash[|ShareTag|..]) == Some(r.value.0)
      && r.value.0.title != "" && r.value.0.messages.Some?
      && ChatsBesideImport(slot) == Some(r.value.1)
  {
    if ShareTag <= hash then
      match decode(hash[|ShareTag|..])
      case Some(d) =>
        if d.title != "" && d.messages.Some? && ChatsBesideImport(slot).Some?
        then Some((d, ChatsBesideImport(slot).value)) else None
      case None => None
    else None
  }

  /**
   * The state cells of the chat history hook, the storage slot it reads and
   * writes, the location hash it reads and strips, and the clock its ids
   * come from.
   */
  class ChatStore {
    var chats: seq<Chat>
    var currentChatId: Option<string>
    var slot: Option<SlotValue>
    var hash: string
    var clock: nat

    /** The state before the startup effect runs. */
    constructor (slot0: Option<SlotValue>, hash0: string, clock0: nat)
      ensures chats == [] && currentChatId == None
      ensures slot == slot0 && hash == hash0 && clock == clock0
    {
      chats, currentChatId := [], None;
      slot, hash, clock := slot0, hash0, clock0;
    }

    /** Every chat has a non-empty id and the current id names one of them. */
    ghost predicate Consistent()
      reads this
    {
      ConsistentState(chats, currentChatId)
    }

    /** `currentChat` */
    function CurrentChat(): (r: Option<Chat>)
      reads this
      ensures Consistent() ==> r.Some? && r.value in chats && Some(r.value.id) == currentChatId
    {
      FindChat(chats, currentChatId)
    }

    /** `Date.now()`: a reading of the clock, which then moves on. */
    method Now() returns (stamp: nat)
      modifies this`clock
      ensures stamp == old(clock) && clock == stamp + 1
    {
      stamp := clock;
      clock := clock + 1;
    }

    /** `setChats(cs)` with a new list. */
    method SetChats(cs: seq<Chat>)
      modifies this`chats
      ensures chats == cs
    {
      chats := cs;
    }

    /**
     * The startup effect: the shared link if it decodes to a chat with a title
     * and a messages array, else the saved snapshot if it is accepted, else a
     * single fresh chat.
     */
    method Bootstrap(decode: string -> Option<ShareData>)
      modifies this
      ensures var share := AcceptedShare(old(hash), decode, old(slot));
        share.Some? ==>
          && chats == [ImportChat(share.value.0.title, share.value.0.messages.value, old(clock))] + share.value.1
          && currentChatId == Some(ChatIdAt(old(clock)))
          && hash == "" && slot == old(slot) && clock == old(clock) + 1
      ensures var share, loaded := AcceptedShare(old(hash), decode, old(slot)), LoadSnapshot(old(slot));
        share.None? && loaded.snapshot.Some? ==>
          && chats == loaded.snapshot.value.chats
          && currentChatId == Some(loaded.snapshot.value.currentChatId)
          && hash == old(hash) && slot == old(slot) && clock == old(clock)
      ensures var share, loaded := AcceptedShare(old(hash), decode, old(slot)), LoadSnapshot(old(slot));
        share.None? && loaded.snapshot.None? ==>
          && chats == [EmptyChat(ChatIdAt(old(clock)))]
          && currentChatId == Some(ChatIdAt(old(clock)))
          && hash == old(hash) && slot == loaded.slot && clock == old(clock) + 1
      ensures AcceptedShare(old(hash), decode, old(slot)).Some? || LoadSnapshot(old(slot)).snapshot.None? ==>
        currentChatId.Some? && |chats| > 0 && chats[0].id == currentChatId.value
    {
      // 1. a shared chat in the location hash
      if ShareTag <= hash {
        var shared := decode(hash[|ShareTag|..]);
        if shared.Some? && shared.value.title != "" && shared.value.messages.Some? {
          var existing := ChatsBesideImport(slot);
          if existing.Some? {
            var stamp := Now();
            var imported := ImportChat(shared.value.title, shared.value.messages.value, stamp);
            chats := [imported] + existing.value;
            currentChatId := Some(imported.id);
            hash := "";
            return;
          }
        }
      }
      // 2. the saved snapshot
      match slot {
        case None =>
        case Some(Unparsable) =>
          slot := None;
        case Some(Stored(saved, savedId)) =>
          if saved.Some? && |saved.value| > 0 && Truthy(savedId) {
            chats := saved.value;
            currentChatId := savedId;
            return;
          }
      }
      // 3. a fresh chat
      var stamp := Now();
      var id := ChatIdAt(stamp);
      chats := [EmptyChat(id)];
      currentChatId := Some(id);
    }

    /**
     * The effect that runs after every change of `chats` or `currentChatId`.
     * `writeFails` says whether `setItem` throws (a full storage, say); the
     * error is only logged and the slot keeps what it held.
     */
    method Persist(writeFails: bool)
      modifies this`slot
      ensures !writeFails ==> slot == SaveSlot(chats, currentChatId)
      ensures writeFails && |chats| > 0 && Truthy(currentChatId) ==> slot == old(slot)
      ensures writeFails && !(|chats| > 0 && Truthy(currentChatId)) ==> slot == None
    {
      if |chats| > 0 && Truthy(currentChatId) {
        if !writeFails {
          slot := Some(Stored(Some(chats), currentChatId));
        }
      } else if slot.Some? {
        slot := None;
      }
    }

    /** `createNewChat`: a fresh chat in front of the others, made current. */
    method CreateNewChat()
      modifies this`chats, this`currentChatId, this`clock
      ensures chats == [EmptyChat(ChatIdAt(old(clock)))] + old(chats)
      ensures currentChatId == Some(ChatIdAt(old(clock)))
      ensures clock == old(clock) + 1
      ensures old(forall k :: 0 <= k < |chats| ==> chats[k].id != "") ==> Consistent()
    {
      var stamp := Now();
      var id := ChatIdAt(stamp);
      chats := [EmptyChat(id)] + chats;
      currentChatId := Some(id);
    }

    /**
     * `deleteChat(id)`: every chat with that id goes; if it was current, the
     * first remaining chat becomes current, or a fresh chat replaces them all.
     */
    method DeleteChat(id: string)
      modifies this`chats, this`currentChatId, this`clock
      ensures var remaining := RemoveChat(old(chats), id);
        old(currentChatId) != Some(id) ==>
          chats == remaining && currentChatId == old(currentChatId) && clock == old(clock)
      ensures var remaining := RemoveChat(old(chats), id);
        old(currentChatId) == Some(id) && |remaining| > 0 ==>
          chats == remaining && currentChatId == Some(remaining[0].id) && clock == old(clock)
      ensures var remaining := RemoveChat(old(chats), id);
        old(currentChatId) == Some(id) && remaining == [] ==>
          && chats == [EmptyChat(ChatIdAt(old(clock)))]
          && currentChatId == Some(ChatIdAt(old(clock))) && clock == old(clock) + 1
      ensures old(currentChatId) == Some(id) ==> |chats| > 0
      ensures old(Consistent()) ==> Consistent()
    {
      var remaining := RemoveChat(chats, id);
      if currentChatId == Some(id) {
        if |remaining| > 0 {
          currentChatId := Some(remaining[0].id);
        } else {
          var stamp := Now();
          var newId := ChatIdAt(stamp);
          currentChatId := Some(newId);
          chats := [EmptyChat(newId)];
          return;
        }
      }
      if old(Consistent()) {
        RemoveKeepsConsistent(chats, old(currentChatId), id);
      }
      chats := remaining;
    }

    /** `renameChat(id, title)` */
    method RenameChat(id: string, title: string)
      modifies this`chats
      ensures chats == RenameChats(old(chats), id, title)
      ensures old(Consistent()) ==> Consistent()
    {
      ghost var before := chats;
      chats := RenameChats(chats, id, title);
      if old(Consistent()) {
        var k := ChatIndex(before, currentChatId.value);
        assert chats[k].id == currentChatId.value;
      }
    }
  }
}
