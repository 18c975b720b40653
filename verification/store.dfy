/**
 * The application store (lib/store.ts): one mutable record holding the
 * signed-in user and the five collections, changed only by its nine actions.
 * Every action is total: it answers `false` or silently does nothing when
 * signed out or when an id is unknown, and otherwise replaces one or two
 * collections by a map or an append of the old one.
 *
 * Ids and timestamps that the source draws from the clock are parameters
 * of the actions here.
 */
module Store {
  import opened Collections
  import opened Domain
  import Seed

  /** `Partial<User>`: the fields an update overrides. */
  datatype ProfileUpdate = ProfileUpdate(
    id: Option<string>,
    username: Option<string>,
    email: Option<string>,
    avatar: Option<string>,
    bio: Option<string>,
    location: Option<string>,
    joinedAt: Option<string>,
    ratingTenths: Option<int>,
    reviewCount: Option<int>,
    isAdmin: Option<bool>)

  /** The listing fields a seller supplies: an item without id, time, status and seller. */
  datatype ItemDraft = ItemDraft(
    title: string,
    description: string,
    price: int,
    category: string,
    images: seq<string>,
    condition: string,
    brand: string,
    specs: map<string, string>)

  /** The review fields a reviewer supplies. */
  datatype ReviewDraft = ReviewDraft(itemId: string, rating: int, comment: string)

  function Override<T>(o: Option<T>, d: T): T {
    match o
    case Some(v) => v
    case None => d
  }

  const NoChanges: ProfileUpdate := ProfileUpdate(None, None, None, None, None, None, None, None, None, None)

  /**
   * `{ ...u, ...updates }`: every field the update gives wins, every other
   * field keeps its value, so an empty update changes nothing and an update
   * without `id` or `isAdmin` keeps the user's id and admin flag.
   */
  function Merge(u: User, p: ProfileUpdate): (r: User)
    ensures p == NoChanges ==> r == u
    ensures p.id.Some? ==> r.id == p.id.value
    ensures p.id.None? ==> r.id == u.id
    ensures p.username.Some? ==> r.username == p.username.value
    ensures p.username.None? ==> r.username == u.username
    ensures p.email.Some? ==> r.email == p.email.value
    ensures p.email.None? ==> r.email == u.email
    ensures p.avatar.Some? ==> r.avatar == p.avatar.value
    ensures p.avatar.None? ==> r.avatar == u.avatar
    ensures p.bio.Some? ==> r.bio == p.bio.value
    ensures p.bio.None? ==> r.bio == u.bio
    ensures p.location.Some? ==> r.location == p.location.value
    ensures p.location.None? ==> r.location == u.location
    ensures p.joinedAt.Some? ==> r.joinedAt == p.joinedAt.value
    ensures p.joinedAt.None? ==> r.joinedAt == u.joinedAt
    ensures p.ratingTenths.Some? ==> r.ratingTenths == p.ratingTenths.value
    ensures p.ratingTenths.None? ==> r.ratingTenths == u.ratingTenths
    ensures p.reviewCount.Some? ==> r.reviewCount == p.reviewCount.value
    ensures p.reviewCount.None? ==> r.reviewCount == u.reviewCount
    ensures p.isAdmin.Some? ==> r.isAdmin == p.isAdmin.value
    ensures p.isAdmin.None? ==> r.isAdmin == u.isAdmin
  {
    User(Override(p.id, u.id), Override(p.username, u.username), Override(p.email, u.email),
      Override(p.avatar, u.avatar), Override(p.bio, u.bio), Override(p.location, u.location),
      Override(p.joinedAt, u.joinedAt), Override(p.ratingTenths, u.ratingTenths),
      Override(p.reviewCount, u.reviewCount), Override(p.isAdmin, u.isAdmin))
  }

  function HasEmail(email: string): User -> bool {
    (u: User) => u.email == email
  }

  function JoinsPair(a: string, b: string): Conversation -> bool {
    (c: Conversation) => Joins(c, a, b)
  }

  /** The user record `register` creates: no bio, no location, no rating or reviews, not an admin. */
  function NewAccount(id: string, username: string, email: string, joinedAt: string): (u: User)
    ensures u.id == id && u.username == username && u.email == email && u.joinedAt == joinedAt
    ensures u.bio == "" && u.location == "" && u.ratingTenths == 0 && u.reviewCount == 0 && !u.isAdmin
  {
    User(id, username, email, "/placeholder.svg?height=100&width=100&query=" + username + " avatar",
      "", "", joinedAt, 0, 0, false)
  }

  /** The listing `addItem` creates for `seller`: pending, with the seller's identity and the draft's fields. */
  function NewListing(d: ItemDraft, id: string, createdAt: Timestamp, seller: User): (it: Item)
    ensures it.id == id && it.status == Pending && it.createdAt == createdAt
    ensures it.sellerId == seller.id && it.sellerName == seller.username && it.sellerAvatar == seller.avatar
    ensures it.title == d.title && it.description == d.description && it.price == d.price && it.category == d.category
    ensures it.images == d.images && it.condition == d.condition && it.brand == d.brand && it.specs == d.specs
  {
    Item(id, d.title, d.description, d.price, d.category, d.images,
      seller.id, seller.username, seller.avatar, d.condition, d.brand, Pending, createdAt, d.specs)
  }

  /** The review `addReview` creates for `author`: the author's identity and the draft's fields. */
  function NewReview(d: ReviewDraft, id: string, createdAt: Timestamp, author: User): (r: Review)
    ensures r.id == id && r.createdAt == createdAt
    ensures r.userId == author.id && r.username == author.username && r.avatar == author.avatar
    ensures r.itemId == d.itemId && r.rating == d.rating && r.comment == d.comment
  {
    Review(id, d.itemId, author.id, author.username, author.avatar, d.rating, d.comment, createdAt)
  }

  // ---------------------------------------------------------------------
  // The per-record updates the actions map over a collection.

  /** `u.id === current?.id ? { ...u, ...updates } : u` */
  function WithProfile(current: Option<User>, p: ProfileUpdate): User -> User {
    (u: User) => if current.Some? && u.id == current.value.id then Merge(u, p) else u
  }

  /** `item.id === itemId ? { ...item, status } : item` */
  function WithStatus(itemId: string, status: Status): Item -> Item {
    (it: Item) => if it.id == itemId then it.(status := status) else it
  }

  /** `c.id === id ? { ...c, lastMessage, lastMessageAt } : c` */
  function WithLastMessage(id: string, content: string, at: Timestamp): Conversation -> Conversation {
    (c: Conversation) => if c.id == id then c.(lastMessage := content, lastMessageAt := at) else c
  }

  /** `c.id === id ? { ...c, unreadCount: 0 } : c` */
  function WithNoUnread(id: string): Conversation -> Conversation {
    (c: Conversation) => if c.id == id then c.(unreadCount := 0) else c
  }

  /** `updateItemStatus`'s map: every listing keeps its id and its seller. */
  function SetStatus(items: seq<Item>, itemId: string, status: Status): (r: seq<Item>)
    ensures |r| == |items|
    ensures forall i :: 0 <= i < |items| ==> r[i].id == items[i].id && r[i].sellerId == items[i].sellerId
  {
    MapSeq(items, WithStatus(itemId, status))
  }

  /** `markMessagesRead`'s map: each conversation keeps its id and participants, and its count either stays or drops to zero. */
  function ClearUnread(conversations: seq<Conversation>, id: string): (r: seq<Conversation>)
    ensures |r| == |conversations|
    ensures forall i :: 0 <= i < |r| ==>
      && r[i].id == conversations[i].id && r[i].participants == conversations[i].participants
      && (r[i].unreadCount == 0 || r[i].unreadCount == conversations[i].unreadCount)
  {
    MapSeq(conversations, WithNoUnread(id))
  }

  /**
   * The conversation list after a message from `sender` to `receiver`: the
   * first conversation joining the two (and any other with the same id) gets
   * the message as its last one; without one, a new conversation is appended.
   */
  function Upsert(conversations: seq<Conversation>, sender: string, receiver: string,
                  content: string, at: Timestamp, newId: string): (r: seq<Conversation>)
    ensures |r| == |conversations| || |r| == |conversations| + 1
    ensures forall i :: 0 <= i < |conversations| ==>
      && r[i].id == conversations[i].id && r[i].participants == conversations[i].participants
      && r[i].unreadCount == conversations[i].unreadCount
  {
    match FindIndex(conversations, JoinsPair(sender, receiver))
    case Some(k) => MapSeq(conversations, WithLastMessage(conversations[k].id, content, at))
    case None => conversations + [Conversation(newId, [sender, receiver], content, at, 0)]
  }

  /**
   * The unread badge of the navigation bar: the sum of all unread counts.
   * With no negative count it is never negative, and it is zero, so the
   * badge is hidden, exactly when no conversation has unread messages.
   */
  function TotalUnread(conversations: seq<Conversation>): (n: int)
    ensures (forall i :: 0 <= i < |conversations| ==> conversations[i].unreadCount >= 0) ==>
      n >= 0 && (n == 0 <==> forall i :: 0 <= i < |conversations| ==> conversations[i].unreadCount == 0)
  {
    if |conversations| == 0 then 0
    else
      assert forall i :: 1 <= i < |conversations| ==> conversations[1..][i - 1] == conversations[i];
      conversations[0].unreadCount + TotalUnread(conversations[1..])
  }

  // ---------------------------------------------------------------------
  // Properties of the updates.

  /** `updateItemStatus` touches only the `status` of the items carrying that id. */
  lemma SetStatusOnlyStatus(items: seq<Item>, itemId: string, status: Status)
    ensures |SetStatus(items, itemId, status)| == |items|
    ensures forall i :: 0 <= i < |items| && items[i].id == itemId ==>
      SetStatus(items, itemId, status)[i] == items[i].(status := status)
    ensures forall i :: 0 <= i < |items| && items[i].id != itemId ==>
      SetStatus(items, itemId, status)[i] == items[i]
  {
  }

  lemma SetStatusUnknownId(items: seq<Item>, itemId: string, status: Status)
    requires forall it :: it in items ==> it.id != itemId
    ensures SetStatus(items, itemId, status) == items
  {
    var r := SetStatus(items, itemId, status);
    assert forall i :: 0 <= i < |items| ==> r[i] == items[i] by {
      forall i | 0 <= i < |items| ensures r[i] == items[i] {
        assert items[i] in items;
      }
    }
  }

  lemma SetStatusIdempotent(items: seq<Item>, itemId: string, status: Status)
    ensures SetStatus(SetStatus(items, itemId, status), itemId, status) == SetStatus(items, itemId, status)
  {
  }

  lemma ClearUnreadSpec(conversations: seq<Conversation>, id: string)
    ensures |ClearUnread(conversations, id)| == |conversations|
    ensures forall i :: 0 <= i < |conversations| ==>
      ClearUnread(conversations, id)[i] ==
        if conversations[i].id == id then conversations[i].(unreadCount := 0) else conversations[i]
  {
  }

  lemma ClearUnreadIdempotent(conversations: seq<Conversation>, id: string)
    ensures ClearUnread(ClearUnread(conversations, id), id) == ClearUnread(conversations, id)
  {
  }

  lemma ClearUnreadUnknownId(conversations: seq<Conversation>, id: string)
    requires forall c :: c in conversations ==> c.id != id
    ensures ClearUnread(conversations, id) == conversations
  {
    var r := ClearUnread(conversations, id);
    assert forall i :: 0 <= i < |conversations| ==> r[i] == conversations[i] by {
      forall i | 0 <= i < |conversations| ensures r[i] == conversations[i] {
        assert conversations[i] in conversations;
      }
    }
  }

  lemma {:induction false} TotalUnreadAppend(conversations: seq<Conversation>, c: Conversation)
    ensures TotalUnread(conversations + [c]) == TotalUnread(conversations) + c.unreadCount
  {
    if |conversations| > 0 {
      assert (conversations + [c])[1..] == conversations[1..] + [c];
      TotalUnreadAppend(conversations[1..], c);
    }
  }

  /** Caching a new last message leaves every unread count, and so the badge, as it was. */
  lemma {:induction false} TotalUnreadLastMessage(conversations: seq<Conversation>, id: string, content: string, at: Timestamp)
    ensures TotalUnread(MapSeq(conversations, WithLastMessage(id, content, at))) == TotalUnread(conversations)
  {
    if |conversations| > 0 {
      var f := WithLastMessage(id, content, at);
      assert MapSeq(conversations, f)[1..] == MapSeq(conversations[1..], f);
      TotalUnreadLastMessage(conversations[1..], id, content, at);
    }
  }

  /** Marking a conversation read never raises the badge, and the badge stays non-negative. */
  lemma {:induction false} TotalUnreadClear(conversations: seq<Conversation>, id: string)
    requires forall c :: c in conversations ==> c.unreadCount >= 0
    ensures 0 <= TotalUnread(ClearUnread(conversations, id)) <= TotalUnread(conversations)
  {
    if |conversations| > 0 {
      assert ClearUnread(conversations, id)[1..] == ClearUnread(conversations[1..], id);
      assert forall c :: c in conversations[1..] ==> c in conversations;
      TotalUnreadClear(conversations[1..], id);
    }
  }

  /**
   * `sendMessage`'s conversation bookkeeping: the list keeps its length when
   * a conversation already joins the pair (`UpsertExisting` says exactly
   * what changes), and grows by exactly one conversation of the pair
   * otherwise; no unread count changes and the badge stays as it was.
   */
  lemma UpsertSpec(conversations: seq<Conversation>, sender: string, receiver: string,
                   content: string, at: Timestamp, newId: string)
    ensures var r := Upsert(conversations, sender, receiver, content, at, newId);
      && ((exists c :: c in conversations && Joins(c, sender, receiver)) ==> |r| == |conversations|)
      && ((forall c :: c in conversations ==> !Joins(c, sender, receiver)) ==>
            r == conversations + [Conversation(newId, [sender, receiver], content, at, 0)])
      && (exists c :: c in r && Joins(c, sender, receiver) && c.lastMessage == content && c.lastMessageAt == at)
      && (|r| == |conversations| || |r| == |conversations| + 1)
      && (forall i :: 0 <= i < |r| && i < |conversations| ==>
            r[i].unreadCount == conversations[i].unreadCount && r[i].participants == conversations[i].participants)
      && TotalUnread(r) == TotalUnread(conversations)
  {
    var r := Upsert(conversations, sender, receiver, content, at, newId);
    match FindIndex(conversations, JoinsPair(sender, receiver))
    case Some(k) =>
      TotalUnreadLastMessage(conversations, conversations[k].id, content, at);
      assert Joins(r[k], sender, receiver);
      assert r[k] in r;
    case None =>
      var c := Conversation(newId, [sender, receiver], content, at, 0);
      TotalUnreadAppend(conversations, c);
      assert r[|r| - 1] == c;
      assert forall c :: c in conversations ==> !Joins(c, sender, receiver) by {
        forall c | c in conversations ensures !Joins(c, sender, receiver) {
          var i :| 0 <= i < |conversations| && conversations[i] == c;
          assert !JoinsPair(sender, receiver)(conversations[i]);
        }
      }
  }

  /**
   * When conversation `k` is the first joining the pair, the message
   * becomes the last message of that conversation and of any other with
   * its id, which change in nothing else, and every other conversation
   * stays as it was.
   */
  lemma UpsertExisting(conversations: seq<Conversation>, sender: string, receiver: string,
                       content: string, at: Timestamp, newId: string, k: nat)
    requires k < |conversations| && Joins(conversations[k], sender, receiver)
    requires forall j :: 0 <= j < k ==> !Joins(conversations[j], sender, receiver)
    ensures var r := Upsert(conversations, sender, receiver, content, at, newId);
      && |r| == |conversations|
      && forall i :: 0 <= i < |conversations| ==>
           r[i] == if conversations[i].id == conversations[k].id
                   then conversations[i].(lastMessage := content, lastMessageAt := at)
                   else conversations[i]
  {
    var found := FindIndex(conversations, JoinsPair(sender, receiver));
    assert JoinsPair(sender, receiver)(conversations[k]);
    assert found.Some?;
    assert JoinsPair(sender, receiver)(conversations[found.value]);
    assert found.value == k;
  }

  /**
   * Two messages in a row between a pair that had no conversation leave
   * exactly one conversation for the pair, holding the second message.
   */
  lemma UpsertTwice(conversations: seq<Conversation>, a: string, b: string,
                    first: string, t1: Timestamp, id1: string,
                    second: string, t2: Timestamp, id2: string)
    requires forall c :: c in conversations ==> !Joins(c, a, b)
    requires forall c :: c in conversations ==> c.id != id1
    ensures var r := Upsert(Upsert(conversations, a, b, first, t1, id1), a, b, second, t2, id2);
      && |r| == |conversations| + 1
      && r[..|conversations|] == conversations
      && r[|conversations|] == Conversation(id1, [a, b], second, t2, 0)
  {
    var r1 := Upsert(conversations, a, b, first, t1, id1);
    UpsertSpec(conversations, a, b, first, t1, id1);
    var n := |conversations|;
    assert r1 == conversations + [Conversation(id1, [a, b], first, t1, 0)];
    var k := FindIndex(r1, JoinsPair(a, b));
    assert JoinsPair(a, b)(r1[n]);
    assert k.Some? && k.value == n;
    var r := MapSeq(r1, WithLastMessage(id1, second, t2));
    forall i | 0 <= i < n ensures r[i] == conversations[i] {
      assert conversations[i] in conversations;
    }
  }

  lemma UpsertKeepsShape(conversations: seq<Conversation>, sender: string, receiver: string,
                         content: string, at: Timestamp, newId: string)
    requires forall c :: c in conversations ==> |c.participants| == 2 && c.unreadCount >= 0
    ensures forall c :: c in Upsert(conversations, sender, receiver, content, at, newId) ==>
      |c.participants| == 2 && c.unreadCount >= 0
  {
    var r := Upsert(conversations, sender, receiver, content, at, newId);
    match FindIndex(conversations, JoinsPair(sender, receiver))
    case Some(k) =>
      forall c | c in r ensures |c.participants| == 2 && c.unreadCount >= 0 {
        var i :| 0 <= i < |r| && r[i] == c;
        assert conversations[i] in conversations;
      }
    case None =>
  }

  // ---------------------------------------------------------------------

  lemma SameIdsSameUsers(a: seq<User>, b: seq<User>)
    requires |a| == |b|
    requires forall i :: 0 <= i < |a| ==> a[i].id == b[i].id
    ensures forall id :: HasUser(a, id) <==> HasUser(b, id)
  {
    forall id ensures HasUser(a, id) ==> HasUser(b, id) {
      if HasUser(a, id) {
        var u :| u in a && u.id == id;
        var i :| 0 <= i < |a| && a[i] == u;
        assert b[i] in b;
      }
    }
    forall id ensures HasUser(b, id) ==> HasUser(a, id) {
      if HasUser(b, id) {
        var u :| u in b && u.id == id;
        var i :| 0 <= i < |b| && b[i] == u;
        assert a[i] in a;
      }
    }
  }

  lemma KnownGrows(users: seq<User>, u: User)
    ensures HasUser(users + [u], u.id)
    ensures forall id :: HasUser(users, id) ==> HasUser(users + [u], id)
  {
    assert u in users + [u];
    forall id | HasUser(users, id) ensures HasUser(users + [u], id) {
      var v :| v in users && v.id == id;
      assert v in users + [u];
    }
  }

  class AppStore {
    var currentUser: Option<User>
    var users: seq<User>
    var items: seq<Item>
    var reviews: seq<Review>
    var messages: seq<Message>
    var conversations: seq<Conversation>

    /**
     * Referential integrity the actions keep: user ids are distinct, the
     * signed-in user is one of the users, every seller, reviewer and sender
     * is a known user, and every conversation joins two participants with a
     * non-negative unread count.
     */
    ghost predicate Consistent()
      reads this
    {
      && UniqueUserIds(users)
      && (currentUser.Some? ==> currentUser.value in users)
      && SellersKnown(users, items)
      && ReviewersKnown(users, reviews)
      && SendersKnown(users, messages)
      && (forall c :: c in conversations ==> |c.participants| == 2 && c.unreadCount >= 0)
    }

    /** A fresh store: signed out, holding the seed collections. */
    constructor ()
      ensures currentUser == None
      ensures users == Seed.MockUsers && items == Seed.MockItems && reviews == Seed.MockReviews
      ensures messages == Seed.MockMessages && conversations == Seed.MockConversations
      ensures Consistent()
    {
      currentUser := None;
      users := Seed.MockUsers;
      items := Seed.MockItems;
      reviews := Seed.MockReviews;
      messages := Seed.MockMessages;
      conversations := Seed.MockConversations;
      Seed.SeedUsersDistinct();
      Seed.SeedSellersMatch();
      Seed.SeedReviewersMatch();
      Seed.SeedMessageSenders();
    }

    /**
     * Signs in as the first user whose email is exactly `email`; the
     * password is never consulted.
     */
    method Login(email: string, password: string) returns (ok: bool)
      modifies this
      ensures ok <==> exists i :: 0 <= i < |users| && users[i].email == email
      ensures ok ==> var k := FindIndex(users, HasEmail(email)).value;
        currentUser == Some(users[k]) && users[k].email == email
        && forall i :: 0 <= i < k ==> users[i].email != email
      ensures !ok ==> currentUser == old(currentUser)
      ensures users == old(users) && items == old(items) && reviews == old(reviews)
      ensures messages == old(messages) && conversations == old(conversations)
      ensures old(Consistent()) ==> Consistent()
    {
      var found := FindIndex(users, HasEmail(email));
      match found
      case Some(k) =>
        assert HasEmail(email)(users[k]);
        assert users[k].email == email;
        currentUser := Some(users[k]);
        ok := true;
        assert exists i :: 0 <= i < |users| && users[i].email == email;
      case None =>
        forall i | 0 <= i < |users| ensures users[i].email != email {
          assert !HasEmail(email)(users[i]);
        }
        ok := false;
        assert !exists i :: 0 <= i < |users| && users[i].email == email;
    }

    /**
     * Creates an account unless the email is taken, and signs in as it.
     * `newId` and `today` stand for the clock-derived id and join date.
     */
    method Register(username: string, email: string, password: string, newId: string, today: string)
      returns (ok: bool)
      modifies this
      ensures ok <==> forall i :: 0 <= i < |old(users)| ==> old(users)[i].email != email
      ensures ok ==> users == old(users) + [NewAccount(newId, username, email, today)]
      ensures ok ==> currentUser == Some(NewAccount(newId, username, email, today))
      ensures ok ==> var u := users[|users| - 1];
        u.username == username && u.email == email && u.ratingTenths == 0 && u.reviewCount == 0
        && !u.isAdmin && u.bio == "" && u.location == ""
      ensures !ok ==> users == old(users) && currentUser == old(currentUser)
      ensures items == old(items) && reviews == old(reviews)
      ensures messages == old(messages) && conversations == old(conversations)
      ensures old(Consistent()) && !HasUser(old(users), newId) ==> Consistent()
    {
      var taken := FindIndex(users, HasEmail(email));
      if taken.Some? {
        return false;
      }
      assert forall i :: 0 <= i < |users| ==> !HasEmail(email)(users[i]);
      ghost var before := users;
      var account := NewAccount(newId, username, email, today);
      users := users + [account];
      currentUser := Some(account);
      ok := true;
      KnownGrows(before, account);
      if !HasUser(before, newId) {
        forall i | 0 <= i < |before| ensures before[i].id != newId {
          assert before[i] in before;
        }
      }
    }

    /** Signs out; idempotent, and touches nothing else. */
    method Logout()
      modifies this
      ensures currentUser == None
      ensures users == old(users) && items == old(items) && reviews == old(reviews)
      ensures messages == old(messages) && conversations == old(conversations)
      ensures old(Consistent()) ==> Consistent()
    {
      currentUser := None;
    }

    /**
     * Merges `p` into the signed-in user and into every user with that id;
     * signed out, nothing changes.
     */
    method UpdateProfile(p: ProfileUpdate)
      modifies this
      ensures currentUser == if old(currentUser).Some? then Some(Merge(old(currentUser).value, p)) else None
      ensures |users| == |old(users)|
      ensures forall i :: 0 <= i < |users| ==>
        users[i] == if old(currentUser).Some? && old(users)[i].id == old(currentUser).value.id
                    then Merge(old(users)[i], p) else old(users)[i]
      ensures items == old(items) && reviews == old(reviews)
      ensures messages == old(messages) && conversations == old(conversations)
      ensures old(Consistent()) && p.id.None? ==> Consistent()
    {
      ghost var was := currentUser;
      ghost var before := users;
      ghost var wasConsistent := Consistent();
      users := MapSeq(users, WithProfile(currentUser, p));
      currentUser := if currentUser.Some? then Some(Merge(currentUser.value, p)) else None;
      if wasConsistent && p.id.None? {
        assert forall i :: 0 <= i < |users| ==> users[i].id == before[i].id;
        SameIdsSameUsers(before, users);
        if was.Some? {
          var k :| 0 <= k < |before| && before[k] == was.value;
          assert users[k] == currentUser.value;
          assert currentUser.value in users;
        }
      }
    }

    /**
     * Lists a new item for sale as the signed-in user: status pending, seller
     * fields copied from that user. Signed out, nothing changes.
     */
    method AddItem(d: ItemDraft, newId: string, today: Timestamp)
      modifies this
      ensures old(currentUser).None? ==> items == old(items)
      ensures old(currentUser).Some? ==> items == old(items) + [NewListing(d, newId, today, old(currentUser).value)]
      ensures old(currentUser).Some? ==> var it := items[|items| - 1];
        it.status == Pending && it.sellerId == old(currentUser).value.id
        && it.sellerName == old(currentUser).value.username && it.sellerAvatar == old(currentUser).value.avatar
        && it.title == d.title && it.price == d.price && it.images == d.images && it.specs == d.specs
      ensures currentUser == old(currentUser) && users == old(users) && reviews == old(reviews)
      ensures messages == old(messages) && conversations == old(conversations)
      ensures old(Consistent()) ==> Consistent()
    {
      if currentUser.None? {
        return;
      }
      var seller := currentUser.value;
      items := items + [NewListing(d, newId, today, seller)];
    }

    /**
     * Sets the status of every item with that id; no transition or admin
     * check, and an unknown id changes nothing.
     */
    method UpdateItemStatus(itemId: string, status: Status)
      modifies this
      ensures items == SetStatus(old(items), itemId, status)
      ensures currentUser == old(currentUser) && users == old(users) && reviews == old(reviews)
      ensures messages == old(messages) && conversations == old(conversations)
      ensures old(Consistent()) ==> Consistent()
    {
      ghost var before := items;
      ghost var wasConsistent := Consistent();
      items := SetStatus(items, itemId, status);
      if wasConsistent {
        forall it | it in items ensures HasUser(users, it.sellerId) {
          var i :| 0 <= i < |items| && items[i] == it;
          assert before[i] in before && before[i].sellerId == it.sellerId;
        }
      }
    }

    /**
     * Appends a review by the signed-in user; it does not look for an
     * earlier review by the same user. Signed out, nothing changes.
     */
    method AddReview(d: ReviewDraft, newId: string, today: Timestamp)
      modifies this
      ensures old(currentUser).None? ==> reviews == old(reviews)
      ensures old(currentUser).Some? ==> reviews == old(reviews) + [NewReview(d, newId, today, old(currentUser).value)]
      ensures old(currentUser).Some? ==> var r := reviews[|reviews| - 1];
        r.itemId == d.itemId && r.rating == d.rating && r.comment == d.comment
        && r.userId == old(currentUser).value.id && r.username == old(currentUser).value.username
        && r.avatar == old(currentUser).value.avatar
      ensures currentUser == old(currentUser) && users == old(users) && items == old(items)
      ensures messages == old(messages) && conversations == old(conversations)
      ensures old(Consistent()) ==> Consistent()
    {
      if currentUser.None? {
        return;
      }
      var author := currentUser.value;
      reviews := reviews + [NewReview(d, newId, today, author)];
    }

    /**
     * Sends `content` from the signed-in user: appends an unread message and
     * records it as the last message of the pair's conversation, creating
     * the conversation when there is none. Signed out, nothing changes.
     */
    method SendMessage(receiverId: string, content: string, msgId: string, convId: string, now: Timestamp)
      modifies this
      ensures old(currentUser).None? ==> messages == old(messages) && conversations == old(conversations)
      ensures old(currentUser).Some? ==>
        messages == old(messages) + [Message(msgId, old(currentUser).value.id, receiverId, content, now, false)]
      ensures old(currentUser).Some? ==>
        conversations == Upsert(old(conversations), old(currentUser).value.id, receiverId, content, now, convId)
      ensures TotalUnread(conversations) == TotalUnread(old(conversations))
      ensures currentUser == old(currentUser) && users == old(users) && items == old(items) && reviews == old(reviews)
      ensures old(Consistent()) ==> Consistent()
    {
      if currentUser.None? {
        return;
      }
      var sender := currentUser.value;
      ghost var wasConsistent := Consistent();
      UpsertSpec(conversations, sender.id, receiverId, content, now, convId);
      if wasConsistent {
        UpsertKeepsShape(conversations, sender.id, receiverId, content, now, convId);
      }
      messages := messages + [Message(msgId, sender.id, receiverId, content, now, false)];
      conversations := Upsert(conversations, sender.id, receiverId, content, now, convId);
    }

    /** Zeroes the unread count of the conversations with that id; an unknown id changes nothing. */
    method MarkMessagesRead(conversationId: string)
      modifies this
      ensures conversations == ClearUnread(old(conversations), conversationId)
      ensures old(Consistent()) ==> TotalUnread(conversations) <= TotalUnread(old(conversations))
      ensures currentUser == old(currentUser) && users == old(users) && items == old(items)
      ensures reviews == old(reviews) && messages == old(messages)
      ensures old(Consistent()) ==> Consistent()
    {
      ghost var before := conversations;
      ghost var wasConsistent := Consistent();
      conversations := ClearUnread(conversations, conversationId);
      if wasConsistent {
        TotalUnreadClear(before, conversationId);
        forall c | c in conversations ensures |c.participants| == 2 && c.unreadCount >= 0 {
          var i :| 0 <= i < |conversations| && conversations[i] == c;
          assert before[i] in before;
        }
      }
    }
  }
}
