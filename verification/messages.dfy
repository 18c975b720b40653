/**
 * The messages page (app/messages/page.tsx): the list of people the
 * signed-in user can chat with, the search over that list, the thread with
 * the selected person, the effect that marks that thread read, and the send
 * form. The page's state cells (`selectedUserId`, `newMessage`,
 * `searchQuery`) are the fields of `MessagesView`; the store is `AppStore`.
 */
module Messages {
  import opened Collections
  import opened Domain
  import opened Text
  import opened Store

  /** `x === o` for an `o` that may be null: null equals no string. */
  predicate IsId(x: string, o: Option<string>) {
    o.Some? && o.value == x
  }

  /** `currentUser?.id || ""` */
  function SelfId(current: Option<User>): string {
    if current.Some? then current.value.id else ""
  }

  /** `conversations.some(c => c.participants.includes(a) && c.participants.includes(b))` */
  predicate ShareConversation(conversations: seq<Conversation>, a: string, b: string) {
    exists i :: 0 <= i < |conversations| && Joins(conversations[i], a, b)
  }

  /** The test `chatUsers` applies to each user. */
  predicate IsChatPartner(u: User, current: Option<User>, conversations: seq<Conversation>, userParam: Option<string>) {
    && !(current.Some? && u.id == current.value.id)
    && (ShareConversation(conversations, u.id, SelfId(current)) || IsId(u.id, userParam))
  }

  function ChatPartnerTest(current: Option<User>, conversations: seq<Conversation>, userParam: Option<string>): User -> bool {
    (u: User) => IsChatPartner(u, current, conversations, userParam)
  }

  /** `chatUsers`: a sub-list of the users that never holds the signed-in user. */
  function ChatUsers(users: seq<User>, current: Option<User>, conversations: seq<Conversation>, userParam: Option<string>): (r: seq<User>)
    ensures |r| <= |users|
    ensures forall u :: u in r ==> u in users && !(current.Some? && u.id == current.value.id)
  {
    Filter(users, ChatPartnerTest(current, conversations, userParam))
  }

  /**
   * The chat list never holds the signed-in user; it holds every other user
   * who shares a conversation with them, plus the user named in the URL,
   * and nobody else.
   */
  lemma ChatUsersSpec(users: seq<User>, current: Option<User>, conversations: seq<Conversation>, userParam: Option<string>)
    ensures current.Some? ==> forall u :: u in ChatUsers(users, current, conversations, userParam) ==> u.id != current.value.id
    ensures forall u :: u in ChatUsers(users, current, conversations, userParam) ==>
      u in users && (ShareConversation(conversations, u.id, SelfId(current)) || IsId(u.id, userParam))
    ensures forall u, c ::
      (u in users && c in conversations && current.Some? && u.id != current.value.id
       && Joins(c, u.id, current.value.id))
      ==> u in ChatUsers(users, current, conversations, userParam)
    ensures forall u ::
      (u in users && IsId(u.id, userParam) && !(current.Some? && u.id == current.value.id))
      ==> u in ChatUsers(users, current, conversations, userParam)
  {
    var test := ChatPartnerTest(current, conversations, userParam);
    forall u | u in ChatUsers(users, current, conversations, userParam)
      ensures u in users && IsChatPartner(u, current, conversations, userParam)
    {
      assert test(u);
    }
    forall u, c | u in users && c in conversations && current.Some? && u.id != current.value.id
      && Joins(c, u.id, current.value.id)
      ensures u in ChatUsers(users, current, conversations, userParam)
    {
      var i :| 0 <= i < |conversations| && conversations[i] == c;
      assert ShareConversation(conversations, u.id, SelfId(current));
      assert test(u);
    }
    forall u | u in users && IsId(u.id, userParam) && !(current.Some? && u.id == current.value.id)
      ensures u in ChatUsers(users, current, conversations, userParam)
    {
      assert test(u);
    }
  }

  function NameMatches(query: string): User -> bool {
    (u: User) => Includes(Lower(u.username), Lower(query))
  }

  /** `filteredChatUsers`: the chat list narrowed by a case-insensitive name search. */
  function FilteredChatUsers(chatUsers: seq<User>, query: string): (r: seq<User>)
    ensures |r| <= |chatUsers|
    ensures forall u :: u in r ==> u in chatUsers
  {
    Filter(chatUsers, NameMatches(query))
  }

  /**
   * The search keeps the chat list's order and only drops people; an empty
   * search drops nobody.
   */
  lemma FilteredChatUsersSpec(chatUsers: seq<User>, query: string)
    ensures forall u :: u in FilteredChatUsers(chatUsers, query) <==>
      u in chatUsers && Includes(Lower(u.username), Lower(query))
    ensures query == "" ==> FilteredChatUsers(chatUsers, query) == chatUsers
  {
    forall u ensures u in FilteredChatUsers(chatUsers, query) <==>
      u in chatUsers && Includes(Lower(u.username), Lower(query))
    {
      assert NameMatches(query)(u) == Includes(Lower(u.username), Lower(query));
    }
    if query == "" {
      forall i | 0 <= i < |chatUsers| ensures NameMatches(query)(chatUsers[i]) {
        assert Lower(query) == "";
        IncludesEmpty(Lower(chatUsers[i].username));
      }
      FilterKeepsAll(chatUsers, NameMatches(query));
    }
  }

  function HasId(selectedUserId: Option<string>): User -> bool {
    (u: User) => IsId(u.id, selectedUserId)
  }

  /** `users.find(u => u.id === selectedUserId)`: the first user with the selected id. */
  function SelectedUser(users: seq<User>, selectedUserId: Option<string>): (r: Option<User>)
    ensures r.Some? <==> exists u :: u in users && IsId(u.id, selectedUserId)
    ensures r.Some? ==> exists k ::
      && 0 <= k < |users| && r.value == users[k] && IsId(users[k].id, selectedUserId)
      && forall j :: 0 <= j < k ==> !IsId(users[j].id, selectedUserId)
  {
    match FindIndex(users, HasId(selectedUserId))
    case Some(k) =>
      assert forall j :: 0 <= j < k ==> !HasId(selectedUserId)(users[j]);
      Some(users[k])
    case None => None
  }

  /** The thread test: a message between the signed-in user and the selected one, in either direction. */
  predicate InThread(m: Message, self: Option<string>, selected: Option<string>) {
    (IsId(m.senderId, self) && IsId(m.receiverId, selected)) || (IsId(m.senderId, selected) && IsId(m.receiverId, self))
  }

  function ThreadTest(self: Option<string>, selected: Option<string>): Message -> bool {
    (m: Message) => InThread(m, self, selected)
  }

  function SentAt(m: Message): int { m.createdAt }

  /** `conversationMessages`: the thread, oldest first, drawn from the store's messages. */
  function ConversationMessages(messages: seq<Message>, self: Option<string>, selected: Option<string>): (r: seq<Message>)
    ensures forall m :: m in r ==> m in messages && InThread(m, self, selected)
    ensures forall i, j :: 0 <= i < j < |r| ==> r[i].createdAt <= r[j].createdAt
  {
    var thread := Filter(messages, ThreadTest(self, selected));
    var sorted := SortBy(thread, SentAt);
    assert forall m :: m in sorted ==> m in multiset(thread);
    assert forall i, j :: 0 <= i < j < |sorted| ==> SentAt(sorted[i]) <= SentAt(sorted[j]);
    sorted
  }

  /**
   * The thread holds exactly the messages between the two people, each as
   * often as in the store, oldest first.
   */
  lemma ConversationMessagesSpec(messages: seq<Message>, self: string, selected: string)
    ensures multiset(ConversationMessages(messages, Some(self), Some(selected)))
         == multiset(Filter(messages, BetweenPair(self, selected)))
    ensures var r := ConversationMessages(messages, Some(self), Some(selected));
      forall i, j :: 0 <= i < j < |r| ==> r[i].createdAt <= r[j].createdAt
  {
    var r := ConversationMessages(messages, Some(self), Some(selected));
    var thread := Filter(messages, ThreadTest(Some(self), Some(selected)));
    var want := Filter(messages, BetweenPair(self, selected));
    forall m ensures multiset(thread)[m] == multiset(want)[m] {
      assert ThreadTest(Some(self), Some(selected))(m) == BetweenPair(self, selected)(m);
    }
    assert multiset(thread) == multiset(want);
    forall i, j | 0 <= i < j < |r| ensures r[i].createdAt <= r[j].createdAt {
      assert SentAt(r[i]) <= SentAt(r[j]);
    }
  }

  /** With nobody signed in or nobody selected the thread is empty. */
  lemma ConversationMessagesNobody(messages: seq<Message>, self: Option<string>, selected: Option<string>)
    requires self.None? || selected.None?
    ensures ConversationMessages(messages, self, selected) == []
  {
    forall i | 0 <= i < |messages| ensures !ThreadTest(self, selected)(messages[i]) {
    }
    FilterDropsAll(messages, ThreadTest(self, selected));
  }

  /** A message just sent from `a` to `b` shows in the thread either of them sees with the other. */
  lemma SentMessageInThread(messages: seq<Message>, m: Message)
    ensures m in ConversationMessages(messages + [m], Some(m.senderId), Some(m.receiverId))
    ensures m in ConversationMessages(messages + [m], Some(m.receiverId), Some(m.senderId))
  {
    var both := messages + [m];
    assert m in both;
    assert m in multiset(Filter(both, ThreadTest(Some(m.senderId), Some(m.receiverId))));
    assert m in multiset(Filter(both, ThreadTest(Some(m.receiverId), Some(m.senderId))));
  }

  /** `!s` for a string that may be null: null and "" are both missing. */
  predicate Present(o: Option<string>) {
    o.Some? && o.value != ""
  }

  class MessagesView {
    var selectedUserId: Option<string>
    var newMessage: string
    var searchQuery: string

    /** The page opens on the user named in the URL, if any, with an empty form and search. */
    constructor (userParam: Option<string>)
      ensures selectedUserId == userParam && newMessage == "" && searchQuery == ""
    {
      selectedUserId := userParam;
      newMessage := "";
      searchQuery := "";
    }

    method SelectUser(id: string)
      modifies this`selectedUserId
      ensures selectedUserId == Some(id)
    {
      selectedUserId := Some(id);
    }

    /** The back button of the thread view. */
    method Deselect()
      modifies this`selectedUserId
      ensures selectedUserId == None
    {
      selectedUserId := None;
    }

    method EditMessage(text: string)
      modifies this`newMessage
      ensures newMessage == text
    {
      newMessage := text;
    }

    method EditSearch(text: string)
      modifies this`searchQuery
      ensures searchQuery == text
    {
      searchQuery := text;
    }

    /**
     * The effect that runs when the selection, the user or the conversations
     * change: with both a selected person and a signed-in user, the first
     * conversation joining them is marked read. Afterwards every
     * conversation carrying that id shows no unread messages.
     */
    method MarkSelectedRead(store: AppStore)
      modifies store
      ensures var found := if Present(selectedUserId) && old(store.currentUser).Some?
          then FindIndex(old(store.conversations), JoinsPair(selectedUserId.value, old(store.currentUser).value.id))
          else None;
        && (found.None? ==> store.conversations == old(store.conversations))
        && (found.Some? ==>
              store.conversations == ClearUnread(old(store.conversations), old(store.conversations)[found.value].id)
              && forall c :: c in store.conversations && c.id == old(store.conversations)[found.value].id ==> c.unreadCount == 0)
      ensures store.currentUser == old(store.currentUser) && store.users == old(store.users)
      ensures store.items == old(store.items) && store.reviews == old(store.reviews) && store.messages == old(store.messages)
      ensures old(store.Consistent()) ==> store.Consistent()
    {
      if Present(selectedUserId) && store.currentUser.Some? {
        var found := FindIndex(store.conversations, JoinsPair(selectedUserId.value, store.currentUser.value.id));
        if found.Some? {
          var id := store.conversations[found.value].id;
          ClearUnreadSpec(store.conversations, id);
          store.MarkMessagesRead(id);
        }
      }
    }

    /**
     * `handleSendMessage`: a message that is blank after trimming, or a
     * missing selection, is ignored; otherwise the trimmed text is sent to the
     * selected person and the input is cleared. A message the page sends is
     * never blank and never starts or ends with white space.
     */
    method HandleSendMessage(store: AppStore, msgId: string, convId: string, now: Timestamp)
      modifies this`newMessage, store
      ensures var text := Trim(old(newMessage));
        var go := text != "" && Present(selectedUserId);
        && (!go ==>
              newMessage == old(newMessage) && store.messages == old(store.messages)
              && store.conversations == old(store.conversations))
        && (go ==> newMessage == "")
        && (go && old(store.currentUser).None? ==>
              store.messages == old(store.messages) && store.conversations == old(store.conversations))
        && (go && old(store.currentUser).Some? ==>
              store.messages == old(store.messages)
                + [Message(msgId, old(store.currentUser).value.id, selectedUserId.value, text, now, false)]
              && store.conversations ==
                Upsert(old(store.conversations), old(store.currentUser).value.id, selectedUserId.value, text, now, convId))
      ensures |store.messages| > |old(store.messages)| ==>
        var sent := store.messages[|store.messages| - 1].content;
        sent != [] && !IsSpace(sent[0]) && !IsSpace(sent[|sent| - 1])
      ensures store.currentUser == old(store.currentUser) && store.users == old(store.users)
      ensures store.items == old(store.items) && store.reviews == old(store.reviews)
      ensures old(store.Consistent()) ==> store.Consistent()
    {
      var text := Trim(newMessage);
      TrimSpec(newMessage);
      if text == "" || !Present(selectedUserId) {
        return;
      }
      ghost var signedIn := store.currentUser.Some?;
      store.SendMessage(selectedUserId.value, text, msgId, convId, now);
      if signedIn {
        assert store.messages[|store.messages| - 1].content == text;
      }
      newMessage := "";
    }
  }
}
