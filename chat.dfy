/** The browser side of the chat: the conversation history with its per-entry
    identifiers, the buffer that collects the assistant's fragments, the
    `pending` flag, and the edits the user can make to the history.  The
    reactive signals become the fields of one `Chat` object, each handler one
    method, and the frames handed to the socket the `outbox` sequence.  A
    freshly generated identifier is a parameter `newId` that is absent from the
    history. */
module Client {
  import opened Wrappers
  import opened Types

  type Uuid = bv128

  //////////////////////////////////////////////////////////////////////////////
  // Lookup by identifier.

  /** The index of the first entry whose identifier is `id`. */
  function ToIndex<T>(id: Uuid, entries: seq<(Uuid, T)>): (r: Option<nat>)
    ensures r.Some? ==> r.value < |entries| && entries[r.value].0 == id
    ensures r.Some? ==> forall j :: 0 <= j < r.value ==> entries[j].0 != id
    ensures r.None? <==> forall j :: 0 <= j < |entries| ==> entries[j].0 != id
  {
    if entries == [] then None
    else if entries[0].0 == id then Some(0)
    else
      match ToIndex(id, entries[1..])
      case None => None
      case Some(i) => Some(i + 1)
  }

  /** No identifier occurs twice. */
  ghost predicate UniqueIds(history: seq<(Uuid, Message)>)
  {
    forall i, j :: 0 <= i < j < |history| ==> history[i].0 != history[j].0
  }

  /** `id` is not in use. */
  ghost predicate Unused(id: Uuid, history: seq<(Uuid, Message)>)
  {
    forall i :: 0 <= i < |history| ==> history[i].0 != id
  }

  /** In a history with unique identifiers, each entry is found at its own index. */
  lemma ToIndexOfUnique(history: seq<(Uuid, Message)>, i: nat)
    requires UniqueIds(history) && i < |history|
    ensures ToIndex(history[i].0, history) == Some(i)
  {
  }

  /** The messages of a history, identifiers dropped, order kept. */
  function Messages(history: seq<(Uuid, Message)>): (ms: seq<Message>)
    ensures |ms| == |history|
    ensures forall i :: 0 <= i < |history| ==> ms[i] == history[i].1
  {
    if history == [] then [] else [history[0].1] + Messages(history[1..])
  }

  /** The identifier of the last entry, if any. */
  function LastId(history: seq<(Uuid, Message)>): (r: Option<Uuid>)
    ensures r.None? <==> history == []
    ensures r.Some? ==> r.value == history[|history| - 1].0
  {
    if history == [] then None else Some(history[|history| - 1].0)
  }

  //////////////////////////////////////////////////////////////////////////////
  // The history edits, as values.

  /** Removing entry `i` keeps identifiers unique and retires the removed one. */
  lemma RemoveRetiresId(history: seq<(Uuid, Message)>, i: nat)
    requires UniqueIds(history) && i < |history|
    ensures UniqueIds(history[..i] + history[i + 1..])
    ensures Unused(history[i].0, history[..i] + history[i + 1..])
    ensures ToIndex(history[i].0, history[..i] + history[i + 1..]) == None
  {
    var rest := history[..i] + history[i + 1..];
    assert forall j :: 0 <= j < |rest| ==> rest[j] == if j < i then history[j] else history[j + 1];
  }

  /** Appending an entry under an unused identifier keeps identifiers unique. */
  lemma AppendKeepsUnique(history: seq<(Uuid, Message)>, newId: Uuid, m: Message)
    requires UniqueIds(history) && Unused(newId, history)
    ensures UniqueIds(history + [(newId, m)])
    ensures ToIndex(newId, history + [(newId, m)]) == Some(|history|)
  {
    ToIndexOfUnique(history + [(newId, m)], |history|);
  }

  /** Truncating just after entry `i` makes it the last entry. */
  lemma TruncateEndsAt(history: seq<(Uuid, Message)>, i: nat)
    requires UniqueIds(history) && i < |history|
    ensures UniqueIds(history[..i + 1])
    ensures LastId(history[..i + 1]) == Some(history[i].0)
    ensures ToIndex(history[i].0, history[..i + 1]) == Some(i)
  {
    ToIndexOfUnique(history[..i + 1], i);
  }

  /** Renaming entry `i` to an unused identifier keeps identifiers unique: the
      entry is found under the new one and no longer under the old one. */
  lemma RenameMovesId(history: seq<(Uuid, Message)>, i: nat, newId: Uuid, m: Message)
    requires UniqueIds(history) && i < |history| && Unused(newId, history)
    ensures UniqueIds(history[i := (newId, m)])
    ensures ToIndex(newId, history[i := (newId, m)]) == Some(i)
    ensures ToIndex(history[i].0, history[i := (newId, m)]) == None
  {
    var renamed := history[i := (newId, m)];
    assert forall j :: 0 <= j < |renamed| ==> renamed[j].0 == if j == i then newId else history[j].0;
    ToIndexOfUnique(renamed, i);
  }

  //////////////////////////////////////////////////////////////////////////////
  // Whitespace trimming, as `str::trim` does it.

  /** The characters with the Unicode White_Space property. */
  predicate IsWhitespace(c: char)
  {
    || ('\t' <= c <= '\r')
    || c == ' '
    || c == '\U{85}'
    || c == '\U{A0}'
    || c == '\U{1680}'
    || ('\U{2000}' <= c <= '\U{200A}')
    || c == '\U{2028}'
    || c == '\U{2029}'
    || c == '\U{202F}'
    || c == '\U{205F}'
    || c == '\U{3000}'
  }

  /** `s` without its leading whitespace. */
  function TrimStart(s: string): (r: string)
    ensures |r| <= |s| && r == s[|s| - |r|..]
    ensures forall i :: 0 <= i < |s| - |r| ==> IsWhitespace(s[i])
    ensures r != [] ==> !IsWhitespace(r[0])
  {
    if s != [] && IsWhitespace(s[0]) then TrimStart(s[1..]) else s
  }

  /** `s` without its trailing whitespace. */
  function TrimEnd(s: string): (r: string)
    ensures |r| <= |s| && r == s[..|r|]
    ensures forall i :: |r| <= i < |s| ==> IsWhitespace(s[i])
    ensures r != [] ==> !IsWhitespace(r[|r| - 1])
  {
    if s != [] && IsWhitespace(s[|s| - 1]) then TrimEnd(s[..|s| - 1]) else s
  }

  /** `s` without leading and trailing whitespace: empty exactly when `s` is
      all whitespace, and otherwise starting and ending with a non-whitespace
      character.  That it is the slice between the whitespace at both ends is
      `TrimIsSlice`. */
  function Trim(s: string): (r: string)
    ensures |r| <= |s|
    ensures r == [] <==> forall i :: 0 <= i < |s| ==> IsWhitespace(s[i])
    ensures r != [] ==> !IsWhitespace(r[0]) && !IsWhitespace(r[|r| - 1])
  {
    var start := TrimStart(s);
    var r := TrimEnd(start);
    TrimBlankIff(s, start, r);
    r
  }

  /** `r` is the slice of `s` at `k`, and everything around it is whitespace. */
  ghost predicate TrimmedAt(s: string, k: int, r: string)
  {
    && 0 <= k && k + |r| <= |s| && r == s[k..k + |r|]
    && (forall i :: 0 <= i < k ==> IsWhitespace(s[i]))
    && (forall i :: k + |r| <= i < |s| ==> IsWhitespace(s[i]))
  }

  /** `Trim(s)` is the slice of `s` after its leading whitespace, with only
      whitespace after it. */
  lemma TrimIsSlice(s: string)
    ensures TrimmedAt(s, |s| - |TrimStart(s)|, Trim(s))
  {
    var start := TrimStart(s);
    TrimBlankIff(s, start, TrimEnd(start));
  }

  /** The two halves of `Trim` together leave the slice between the
      whitespace at both ends, and remove everything exactly when everything
      is whitespace. */
  lemma TrimBlankIff(s: string, start: string, r: string)
    requires |start| <= |s| && start == s[|s| - |start|..]
    requires forall i :: 0 <= i < |s| - |start| ==> IsWhitespace(s[i])
    requires start != [] ==> !IsWhitespace(start[0])
    requires |r| <= |start| && r == start[..|r|]
    requires forall i :: |r| <= i < |start| ==> IsWhitespace(start[i])
    ensures TrimmedAt(s, |s| - |start|, r)
    ensures r == [] <==> forall i :: 0 <= i < |s| ==> IsWhitespace(s[i])
    ensures r != [] ==> !IsWhitespace(r[0])
  {
    var k := |s| - |start|;
    assert r == s[k..k + |r|];
    assert forall i :: k + |r| <= i < |s| ==> s[i] == start[i - k];
    if r != [] {
      assert r[0] == start[0] == s[k];
    }
  }

  //////////////////////////////////////////////////////////////////////////////
  // The message editor's height.

  /** The editor's width, in columns. */
  const Cols: nat := 80

  /** The number of UTF-8 bytes encoding `c`. */
  function Utf8Width(c: char): nat
  {
    if c < '\U{80}' then 1 else if c < '\U{800}' then 2 else if c < '\U{10000}' then 3 else 4
  }

  /** The byte length of `s` in UTF-8, which is what `String::len` counts. */
  function Utf8Len(s: string): (n: nat)
    ensures n >= |s|
  {
    if s == [] then 0 else Utf8Width(s[0]) + Utf8Len(s[1..])
  }

  /** The editor's row count: the fewest rows of `Cols` columns that hold more
      than the text's byte length. */
  function Rows(message: string): (rows: nat)
    ensures rows >= 1
    ensures (rows - 1) * Cols <= Utf8Len(message) < rows * Cols
  {
    Utf8Len(message) / Cols + 1
  }

  //////////////////////////////////////////////////////////////////////////////
  // The chat component's state.

  /** The socket's ready state. */
  datatype ReadyState = Connecting | Open | Closing | Closed

  class Chat {
    /** The conversation, oldest first. */
    var history: seq<(Uuid, Message)>
    /** The user's unsent message. */
    var draft: string
    /** The assistant's incomplete message. */
    var buffer: string
    /** Whether a reply is being generated. */
    var pending: bool
    /** The frames handed to the socket, in order. */
    var outbox: seq<AppMessage>

    ghost predicate Valid()
      reads this`history
    {
      UniqueIds(history)
    }

    constructor ()
      ensures Valid()
      ensures history == [] && draft == "" && buffer == "" && !pending && outbox == []
    {
      history, draft, buffer, pending, outbox := [], "", "", false, [];
    }

    /** Whether the user may send: the socket is open and no reply is pending. */
    function CanSend(ready: ReadyState): bool
      reads this
    {
      ready == Open && !pending
    }

    /** Whether entry `id` shows its action buttons: it is present and not
        the system prompt, which is drawn without any. */
    function HasActions(id: Uuid): (b: bool)
      reads this
      ensures b ==> ToIndex(id, history).Some?
      ensures b <==> exists i :: 0 <= i < |history| && history[i].0 == id && history[i].1.role != System
                                 && forall j :: 0 <= j < i ==> history[j].0 != id
    {
      match ToIndex(id, history)
      case None => false
      case Some(i) => history[i].1.role != System
    }

    /** Regenerate is offered on the last entry only, when it is the
        assistant's, and is disabled while a reply is pending. */
    function RegenerateOffered(id: Uuid): (b: bool)
      reads this
      ensures b ==> history != [] && history[|history| - 1].0 == id && history[|history| - 1].1.role == Assistant
    {
      LastId(history) == Some(id) && history[|history| - 1].1.role == Assistant && !pending
    }

    /** Rewind is offered on every entry with actions but the last, and is
        disabled while a reply is pending. */
    function RewindOffered(id: Uuid): (b: bool)
      reads this
      ensures b ==> HasActions(id) && (history == [] || history[|history| - 1].0 != id)
    {
      LastId(history) != Some(id) && HasActions(id) && !pending
    }

    /** Once loaded, a system prompt becomes an entry of the history. */
    method LoadSystemMessage(loaded: Option<Result<Message, ServerFnError>>, newId: Uuid)
      requires Valid() && Unused(newId, history)
      modifies this
      ensures Valid()
      ensures history == if loaded.Some? && loaded.value.Ok? then old(history) + [(newId, loaded.value.value)] else old(history)
      ensures draft == old(draft) && buffer == old(buffer) && pending == old(pending) && outbox == old(outbox)
    {
      if loaded.Some? && loaded.value.Ok? {
        AppendKeepsUnique(history, newId, loaded.value.value);
        history := history + [(newId, loaded.value.value)];
      }
    }

    /** The user types. */
    method Input(text: string)
      modifies this`draft
      ensures draft == text
    {
      draft := text;
    }

    /** Ask for the next assistant message: mark a reply pending and send the
        whole history, identifiers dropped. */
    method SendHistory()
      modifies this`pending, this`outbox
      ensures pending
      ensures outbox == old(outbox) + [StartChat(Messages(history))]
    {
      pending := true;
      outbox := outbox + [StartChat(Messages(history))];
    }

    /** End the pending reply: empty the buffer and add its trimmed text to
        the history as an assistant message unless it is empty. */
    method Complete(newId: Uuid)
      requires Valid() && Unused(newId, history)
      modifies this`history, this`buffer, this`pending
      ensures Valid()
      ensures !pending && buffer == ""
      ensures history == if Trim(old(buffer)) == "" then old(history)
                         else old(history) + [(newId, Message(Assistant, Trim(old(buffer))))]
    {
      pending := false;
      var complete := Assistant.MessageWith(Trim(buffer));
      buffer := "";
      if complete.content != "" {
        AppendKeepsUnique(history, newId, complete);
        history := history + [(newId, complete)];
      }
    }

    /** React to a frame from the server.  A fragment grows the buffer; a
        completion ends the pending reply as `Complete` does; anything else is
        ignored. */
    method Receive(message: Option<AppMessage>, newId: Uuid)
      requires Valid() && Unused(newId, history)
      modifies this`history, this`buffer, this`pending
      ensures Valid()
      ensures draft == old(draft) && outbox == old(outbox)
      ensures message.Some? && message.value.NextChatFragment? ==>
        && buffer == old(buffer) + message.value.fragment
        && history == old(history) && pending == old(pending)
      ensures message.Some? && message.value.ChatCompleted? ==>
        && !pending && buffer == ""
        && history == if Trim(old(buffer)) == "" then old(history)
                      else old(history) + [(newId, Message(Assistant, Trim(old(buffer))))]
      ensures message.None? || message.value.StartChat? || message.value.Error? ==>
        buffer == old(buffer) && history == old(history) && pending == old(pending)
    {
      match message {
        case None =>
        case Some(NextChatFragment(fragment)) =>
          buffer := buffer + fragment;
        case Some(ChatCompleted) =>
          Complete(newId);
        case Some(StartChat(_)) =>
        case Some(Error(_)) =>
      }
    }

    /** Remove the last entry and ask for a new reply to what precedes it. */
    method Regenerate(id: Uuid)
      requires Valid() && RegenerateOffered(id)
      modifies this
      ensures Valid()
      ensures history == old(history)[..|old(history)| - 1]
      ensures pending && outbox == old(outbox) + [StartChat(Messages(history))]
      ensures draft == old(draft) && buffer == old(buffer)
    {
      ToIndexOfUnique(history, |history| - 1);
      var index := ToIndex(id, history).value;
      RemoveRetiresId(history, index);
      history := history[..index] + history[index + 1..];
      SendHistory();
    }

    /** Drop every entry after `id`, which becomes the last. */
    method Rewind(id: Uuid)
      requires Valid() && RewindOffered(id)
      modifies this`history
      ensures Valid()
      ensures history == old(history)[..ToIndex(id, old(history)).value + 1]
      ensures LastId(history) == Some(id)
    {
      var index := ToIndex(id, history).value;
      TruncateEndsAt(history, index);
      history := history[..index + 1];
    }

    /** Replace the content of entry `id`, which gets the newId identifier and
        keeps its role and place. */
    method Edit(id: Uuid, content: string, newId: Uuid)
      requires Valid() && HasActions(id) && Unused(newId, history)
      modifies this`history
      ensures Valid()
      ensures var i := ToIndex(id, old(history)).value;
        history == old(history)[i := (newId, Message(old(history)[i].1.role, content))]
      ensures ToIndex(newId, history) == ToIndex(id, old(history))
      ensures ToIndex(id, history) == None
    {
      var index := ToIndex(id, history).value;
      var entry := (newId, history[index].1.(content := content));
      RenameMovesId(history, index, newId, entry.1);
      history := history[index := entry];
    }

    /** Remove entry `id`; the others keep their order. */
    method Delete(id: Uuid)
      requires Valid() && HasActions(id) && !pending
      modifies this`history
      ensures Valid()
      ensures var i := ToIndex(id, old(history)).value;
        history == old(history)[..i] + old(history)[i + 1..]
      ensures |history| == |old(history)| - 1
      ensures ToIndex(id, history) == None
    {
      var index := ToIndex(id, history).value;
      RemoveRetiresId(history, index);
      history := history[..index] + history[index + 1..];
    }

    /** Move a draft that is not all whitespace, untrimmed, into the history
        as a user message, and clear the draft. */
    method EnterDraft(newId: Uuid)
      requires Valid() && Unused(newId, history)
      modifies this`history, this`draft
      ensures Valid()
      ensures Trim(old(draft)) != "" ==>
        history == old(history) + [(newId, Message(User, old(draft)))] && draft == ""
      ensures Trim(old(draft)) == "" ==> history == old(history) && draft == old(draft)
    {
      var message := draft;
      if Trim(message) != "" {
        AppendKeepsUnique(history, newId, User.MessageWith(message));
        history := history + [(newId, User.MessageWith(message))];
        draft := "";
      }
    }

    /** Submit the form.  Only when the user may send: the draft is entered,
        and then, with or without a new entry, the history is sent. */
    method Submit(ready: ReadyState, newId: Uuid)
      requires Valid() && Unused(newId, history)
      modifies this`history, this`draft, this`pending, this`outbox
      ensures Valid()
      ensures !old(CanSend(ready)) ==>
        history == old(history) && draft == old(draft) && pending == old(pending) && outbox == old(outbox)
      ensures old(CanSend(ready)) && Trim(old(draft)) != "" ==>
        history == old(history) + [(newId, Message(User, old(draft)))] && draft == ""
      ensures old(CanSend(ready)) && Trim(old(draft)) == "" ==>
        history == old(history) && draft == old(draft)
      ensures old(CanSend(ready)) ==> pending && outbox == old(outbox) + [StartChat(Messages(history))]
    {
      if CanSend(ready) {
        EnterDraft(newId);
        SendHistory();
      }
    }
  }

  /** Rewinding to the last entry would change nothing, which is why it is not
      offered there. */
  lemma RewindToLastChangesNothing(history: seq<(Uuid, Message)>)
    requires UniqueIds(history) && history != []
    ensures ToIndex(history[|history| - 1].0, history) == Some(|history| - 1)
    ensures history[..ToIndex(history[|history| - 1].0, history).value + 1] == history
  {
    ToIndexOfUnique(history, |history| - 1);
  }

  /** Trimming is determined by what it promises: any slice of `s` with only
      whitespace around it and no whitespace at its own ends is `Trim(s)`.
      So the reply a completion adds to the history is exactly the buffer
      with its surrounding whitespace removed. */
  lemma TrimUnique(s: string, k: nat, t: string)
    requires TrimmedAt(s, k, t)
    requires t != [] ==> !IsWhitespace(t[0]) && !IsWhitespace(t[|t| - 1])
    ensures Trim(s) == t
  {
    TrimIsSlice(s);
    SlicesAgree(IsWhitespace, s, k, t, |s| - |TrimStart(s)|, Trim(s));
  }

  /** Two slices of `s`, each with only `ws` characters around it and none at
      its own ends, are the same slice. */
  lemma SlicesAgree(ws: char -> bool, s: string, k: int, t: string, k': int, r: string)
    requires 0 <= k && k + |t| <= |s| && t == s[k..k + |t|]
    requires forall i :: 0 <= i < k || k + |t| <= i < |s| ==> ws(s[i])
    requires t != [] ==> !ws(t[0]) && !ws(t[|t| - 1])
    requires 0 <= k' && k' + |r| <= |s| && r == s[k'..k' + |r|]
    requires forall i :: 0 <= i < k' || k' + |r| <= i < |s| ==> ws(s[i])
    requires r != [] ==> !ws(r[0]) && !ws(r[|r| - 1])
    ensures t == r
  {
    if t != [] {
      assert !ws(s[k]) && !ws(s[k + |t| - 1]);
      assert r != [];
      assert !ws(s[k']) && !ws(s[k' + |r| - 1]);
      assert k == k' && k + |t| == k' + |r|;
    } else {
      assert forall i :: 0 <= i < |s| ==> ws(s[i]);
    }
  }
}
