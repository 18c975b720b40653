/**
 * Entity records of the marketplace (lib/mock-data.ts).
 *
 * Every entity is an immutable value: the store replaces records wholesale,
 * so each one is a datatype. Timestamps are integer keys that order like the
 * ISO dates of the source (a date 2024-01-15 is 20240115, an instant
 * 2024-01-20T10:30 is 202401201030). Prices are whole numbers, and a user's
 * rating is kept in tenths of a star (4.9 is 49).
 */
module Domain {

  type Timestamp = int

  datatype User = User(
    id: string,
    username: string,
    email: string,
    avatar: string,
    bio: string,
    location: string,
    joinedAt: string,
    ratingTenths: int,
    reviewCount: int,
    isAdmin: bool)

  /** Moderation state of a listing. */
  datatype Status = Pending | Approved | Rejected

  /**
   * A listing. `category` ("knife" | "watch") and `condition`
   * ("new" | "like-new" | "good" | "fair") are string-literal unions in the
   * source and are compared as strings by the browse filters, so they stay
   * strings here.
   */
  datatype Item = Item(
    id: string,
    title: string,
    description: string,
    price: int,
    category: string,
    images: seq<string>,
    sellerId: string,
    sellerName: string,
    sellerAvatar: string,
    condition: string,
    brand: string,
    status: Status,
    createdAt: Timestamp,
    specs: map<string, string>)

  datatype Review = Review(
    id: string,
    itemId: string,
    userId: string,
    username: string,
    avatar: string,
    rating: int,
    comment: string,
    createdAt: Timestamp)

  datatype Message = Message(
    id: string,
    senderId: string,
    receiverId: string,
    content: string,
    createdAt: Timestamp,
    read: bool)

  datatype Conversation = Conversation(
    id: string,
    participants: seq<string>,
    lastMessage: string,
    lastMessageAt: Timestamp,
    unreadCount: int)

  predicate IsCategory(s: string) {
    s == "knife" || s == "watch"
  }

  predicate IsCondition(s: string) {
    s == "new" || s == "like-new" || s == "good" || s == "fair"
  }

  /** `participants.includes(a) && participants.includes(b)` */
  predicate Joins(c: Conversation, a: string, b: string) {
    a in c.participants && b in c.participants
  }

  /** The messages exchanged, in either direction, between `a` and `b`. */
  predicate Between(m: Message, a: string, b: string) {
    (m.senderId == a && m.receiverId == b) || (m.senderId == b && m.receiverId == a)
  }

  /** `Between` as a filter predicate. */
  function BetweenPair(a: string, b: string): Message -> bool {
    (m: Message) => Between(m, a, b)
  }

  predicate IsUnread(m: Message) {
    !m.read
  }
  // Referential integrity between the collections.

  predicate HasUser(users: seq<User>, id: string) {
    exists u :: u in users && u.id == id
  }

  predicate UniqueUserIds(users: seq<User>) {
    forall i, j :: 0 <= i < j < |users| ==> users[i].id != users[j].id
  }

  predicate SellersKnown(users: seq<User>, items: seq<Item>) {
    forall it :: it in items ==> HasUser(users, it.sellerId)
  }

  predicate ReviewersKnown(users: seq<User>, reviews: seq<Review>) {
    forall r :: r in reviews ==> HasUser(users, r.userId)
  }

  predicate SendersKnown(users: seq<User>, messages: seq<Message>) {
    forall m :: m in messages ==> HasUser(users, m.senderId)
  }

  /** No two reviews share an (item, reviewer) pair. */
  predicate OneReviewPerUser(reviews: seq<Review>) {
    forall i, j :: 0 <= i < j < |reviews| ==>
      !(reviews[i].itemId == reviews[j].itemId && reviews[i].userId == reviews[j].userId)
  }
}
