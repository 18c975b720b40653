/**
 * The seed collections the store starts from (lib/mock-data.ts), and the
 * referential facts they satisfy.
 */
module Seed {
  import opened Collections
  import opened Domain

  const MockUsers: seq<User> := [
    User("user-1", "BladeCollector", "blade@example.com", "/bearded-man-avatar.png",
      "Passionate knife collector for over 15 years. Specializing in Japanese craftsmanship.",
      "Portland, OR", "2022-03-15", 49, 47, false),
    User("user-2", "TimeKeeper", "time@example.com", "/professional-woman-avatar.png",
      "Watch enthusiast and certified horologist. Quality timepieces only.",
      "Geneva, Switzerland", "2021-08-22", 48, 89, false),
    User("user-3", "EdgeMaster", "edge@example.com", "/man-with-glasses-avatar.png",
      "Custom knife maker and collector. Every blade tells a story.",
      "Tokyo, Japan", "2020-11-10", 50, 124, false),
    User("admin-1", "Moderator", "mod@edge.com", "/admin-avatar-shield.jpg",
      "Platform moderator ensuring quality and compliance.",
      "San Francisco, CA", "2020-01-01", 50, 0, true)
  ]

  const MockItems: seq<Item> := [
    Item("item-1", "Benchmade Bugout 535BK-2",
      "Lightweight everyday carry knife with CPM-S30V blade steel. Perfect for outdoor enthusiasts. Minimal signs of use, blade is factory sharp.",
      145, "knife",
      ["/benchmade-bugout-folding-knife-black.jpg", "/folding-knife-blade-detail.jpg"],
      "user-1", "BladeCollector", "/bearded-man-avatar.png", "like-new", "Benchmade", Approved, 20240115,
      map["Blade Length" := "3.24 inches", "Blade Steel" := "CPM-S30V", "Handle Material" := "CF-Elite",
          "Weight" := "1.85 oz", "Lock Type" := "AXIS Lock"]),
    Item("item-2", "Omega Seamaster Planet Ocean 600M",
      "Professional dive watch in excellent condition. Full box and papers included. Recently serviced by Omega certified technician.",
      4850, "watch",
      ["/omega-seamaster-planet-ocean-dive-watch.jpg", "/luxury-watch-caseback-omega.jpg"],
      "user-2", "TimeKeeper", "/professional-woman-avatar.png", "like-new", "Omega", Approved, 20240110,
      map["Case Diameter" := "43.5mm", "Movement" := "Co-Axial 8900", "Water Resistance" := "600m",
          "Crystal" := "Sapphire", "Power Reserve" := "60 hours"]),
    Item("item-3", "Chris Reeve Sebenza 31 Large",
      "The legendary Sebenza 31. This is the large version with S45VN blade. Pristine condition, carried a handful of times.",
      425, "knife",
      ["/chris-reeve-sebenza-folding-knife-titanium.jpg", "/premium-folding-knife-open-blade.jpg"],
      "user-3", "EdgeMaster", "/man-with-glasses-avatar.png", "like-new", "Chris Reeve Knives", Approved, 20240108,
      map["Blade Length" := "3.625 inches", "Blade Steel" := "S45VN", "Handle Material" := "Titanium",
          "Weight" := "4.7 oz", "Lock Type" := "Frame Lock"]),
    Item("item-4", "Rolex Submariner Date 126610LN",
      "2023 model with remaining warranty. Worn sparingly, in mint condition. All original links, box, and papers.",
      12500, "watch",
      ["/rolex-submariner-black-dial-steel-watch.jpg", "/rolex-watch-bracelet-clasp-detail.jpg"],
      "user-2", "TimeKeeper", "/professional-woman-avatar.png", "like-new", "Rolex", Approved, 20240105,
      map["Case Diameter" := "41mm", "Movement" := "Caliber 3235", "Water Resistance" := "300m",
          "Crystal" := "Sapphire", "Power Reserve" := "70 hours"]),
    Item("item-5", "Spyderco Para Military 2",
      "Classic EDC knife in S45VN. Well broken in action, smooth as butter. Some light scratches on the clip.",
      125, "knife",
      ["/spyderco-paramilitary-2-folding-knife.jpg", "/tactical-folding-knife-blade.jpg"],
      "user-1", "BladeCollector", "/bearded-man-avatar.png", "good", "Spyderco", Approved, 20240103,
      map["Blade Length" := "3.42 inches", "Blade Steel" := "S45VN", "Handle Material" := "G-10",
          "Weight" := "3.75 oz", "Lock Type" := "Compression Lock"]),
    Item("item-6", "Tudor Black Bay 58",
      "Beautiful vintage-inspired diver. Blue dial version. Excellent condition with Tudor fabric strap.",
      3200, "watch",
      ["/tudor-black-bay-58-blue-dial-watch.jpg", "/dive-watch-nato-strap-detail.jpg"],
      "user-3", "EdgeMaster", "/man-with-glasses-avatar.png", "like-new", "Tudor", Approved, 20240101,
      map["Case Diameter" := "39mm", "Movement" := "MT5402", "Water Resistance" := "200m",
          "Crystal" := "Sapphire", "Power Reserve" := "70 hours"]),
    Item("item-7", "Microtech Ultratech",
      "OTF automatic knife. Like new in box. Fires hard with no blade play.",
      280, "knife",
      ["/microtech-ultratech-otf-automatic-knife.jpg"],
      "user-1", "BladeCollector", "/bearded-man-avatar.png", "like-new", "Microtech", Pending, 20240120,
      map["Blade Length" := "3.35 inches", "Blade Steel" := "M390", "Handle Material" := "Aluminum",
          "Weight" := "3.4 oz", "Lock Type" := "OTF Slide Lock"]),
    Item("item-8", "Grand Seiko SBGA413 Spring Drive",
      "Stunning snowflake dial. Full kit with warranty card dated 2023.",
      5800, "watch",
      ["/grand-seiko-spring-drive-snowflake-dial-watch.jpg"],
      "user-2", "TimeKeeper", "/professional-woman-avatar.png", "like-new", "Grand Seiko", Pending, 20240118,
      map["Case Diameter" := "40mm", "Movement" := "9R65 Spring Drive", "Water Resistance" := "100m",
          "Crystal" := "Sapphire", "Power Reserve" := "72 hours"])
  ]

  const MockReviews: seq<Review> := [
    Review("review-1", "item-1", "user-2", "TimeKeeper", "/professional-woman-avatar.png", 5,
      "Knife arrived exactly as described. Great seller with fast shipping!", 20240118),
    Review("review-2", "item-2", "user-1", "BladeCollector", "/bearded-man-avatar.png", 5,
      "Absolutely stunning timepiece. Perfect condition and authentic.", 20240114),
    Review("review-3", "item-3", "user-2", "TimeKeeper", "/professional-woman-avatar.png", 4,
      "Beautiful Sebenza. Minor delay in shipping but item was perfect.", 20240112)
  ]

  const MockMessages: seq<Message> := [
    Message("msg-1", "user-1", "user-2", "Hi! Is the Omega still available?", 202401201030, true),
    Message("msg-2", "user-2", "user-1", "Yes it is! Would you like more photos?", 202401201035, true),
    Message("msg-3", "user-1", "user-2", "That would be great, especially of the caseback and clasp.", 202401201040, true),
    Message("msg-4", "user-2", "user-1", "I'll send those over shortly. The watch has been serviced recently.", 202401201045, true),
    Message("msg-5", "user-1", "user-2", "Perfect! Does it come with box and papers?", 202401201100, true),
    Message("msg-6", "user-2", "user-1", "Yes, full set! Original box, warranty card, service papers, and all original links.", 202401201105, true),
    Message("msg-7", "user-1", "user-2", "Excellent! I'm very interested. Can we discuss payment and shipping?", 202401201115, false),
    Message("msg-8", "user-3", "user-1", "Hey, saw your Benchmade listing. Still available?", 202401210900, true),
    Message("msg-9", "user-1", "user-3", "Hi! Yes, it's still available. Interested?", 202401210915, true),
    Message("msg-10", "user-3", "user-1", "Definitely! Can you tell me more about the condition? Any blade play or lock stick?", 202401210920, true),
    Message("msg-11", "user-1", "user-3", "No blade play at all, locks up solid. Action is smooth and drop-shut. Factory edge, never sharpened.", 202401210925, true),
    Message("msg-12", "user-3", "user-1", "Sounds perfect! Would you consider $130?", 202401210930, false)
  ]

  const MockConversations: seq<Conversation> := [
    Conversation("conv-1", ["user-1", "user-2"],
      "Excellent! I'm very interested. Can we discuss payment and shipping?", 202401201115, 1),
    Conversation("conv-2", ["user-1", "user-3"],
      "Sounds perfect! Would you consider $130?", 202401210930, 1)
  ]

  lemma SeedUsersDistinct()
    ensures UniqueUserIds(MockUsers)
    ensures forall i, j :: 0 <= i < j < |MockUsers| ==> MockUsers[i].email != MockUsers[j].email
  {
  }
  lemma SeedOneAdmin()
    ensures Filter(MockUsers, (u: User) => u.isAdmin) == [MockUsers[3]]
    ensures MockUsers[3].id == "admin-1"
  {
  }

  /** The seller name and avatar copied into a listing are those of the user it names. */
  predicate SellerSnapshotMatches(users: seq<User>, it: Item) {
    exists u :: u in users && u.id == it.sellerId && u.username == it.sellerName && u.avatar == it.sellerAvatar
  }

  /** The reviewer name and avatar copied into a review are those of the user it names. */
  predicate ReviewerSnapshotMatches(users: seq<User>, r: Review) {
    exists u :: u in users && u.id == r.userId && u.username == r.username && u.avatar == r.avatar
  }

  lemma SeedSellersMatch()
    ensures SellersKnown(MockUsers, MockItems)
    ensures forall it :: it in MockItems ==> SellerSnapshotMatches(MockUsers, it)
  {
    // index into MockUsers of each item's seller
    var sellerOf := [0, 1, 2, 1, 0, 2, 0, 1];
    assert forall i :: 0 <= i < |MockItems| ==>
      && MockUsers[sellerOf[i]].id == MockItems[i].sellerId
      && MockUsers[sellerOf[i]].username == MockItems[i].sellerName
      && MockUsers[sellerOf[i]].avatar == MockItems[i].sellerAvatar;
    forall it | it in MockItems ensures SellerSnapshotMatches(MockUsers, it) && HasUser(MockUsers, it.sellerId) {
      var i :| 0 <= i < |MockItems| && MockItems[i] == it;
      assert MockUsers[sellerOf[i]] in MockUsers;
    }
  }

  lemma SeedItemsListable()
    ensures forall it :: it in MockItems ==> |it.images| > 0 && it.price > 0
    ensures forall it :: it in MockItems ==> IsCategory(it.category) && IsCondition(it.condition)
  {
  }

  /** `item-7` and `item-8` await moderation; every other seed listing is approved. */
  lemma SeedItemStatuses()
    ensures forall i :: 0 <= i < |MockItems| ==> MockItems[i].status == (if i == 6 || i == 7 then Pending else Approved)
    ensures MockItems[6].id == "item-7" && MockItems[7].id == "item-8"
  {
  }

  lemma SeedReviewersMatch()
    ensures ReviewersKnown(MockUsers, MockReviews)
    ensures forall r :: r in MockReviews ==> ReviewerSnapshotMatches(MockUsers, r)
  {
    var reviewerOf := [1, 0, 1];
    assert forall i :: 0 <= i < |MockReviews| ==>
      && MockUsers[reviewerOf[i]].id == MockReviews[i].userId
      && MockUsers[reviewerOf[i]].username == MockReviews[i].username
      && MockUsers[reviewerOf[i]].avatar == MockReviews[i].avatar;
    forall r | r in MockReviews ensures ReviewerSnapshotMatches(MockUsers, r) && HasUser(MockUsers, r.userId) {
      var i :| 0 <= i < |MockReviews| && MockReviews[i] == r;
      assert MockUsers[reviewerOf[i]] in MockUsers;
    }
  }

  lemma SeedReviewedItemsExist()
    ensures forall r :: r in MockReviews ==> exists it :: it in MockItems && it.id == r.itemId
  {
    assert forall i :: 0 <= i < |MockReviews| ==> MockItems[i].id == MockReviews[i].itemId;
    forall r | r in MockReviews ensures exists it :: it in MockItems && it.id == r.itemId {
      var i :| 0 <= i < |MockReviews| && MockReviews[i] == r;
      assert MockItems[i] in MockItems;
    }
  }

  lemma SeedReviewRatings()
    ensures forall r :: r in MockReviews ==> 1 <= r.rating <= 5
    ensures OneReviewPerUser(MockReviews)
  {
  }

  lemma SeedMessageSenders()
    ensures SendersKnown(MockUsers, MockMessages)
  {
    var senderOf := [0, 1, 0, 1, 0, 1, 0, 2, 0, 2, 0, 2];
    assert forall i :: 0 <= i < |MockMessages| ==> MockUsers[senderOf[i]].id == MockMessages[i].senderId;
    forall m | m in MockMessages ensures HasUser(MockUsers, m.senderId) {
      var i :| 0 <= i < |MockMessages| && MockMessages[i] == m;
      assert MockUsers[senderOf[i]] in MockUsers;
    }
  }

  lemma SeedMessageReceivers()
    ensures forall m :: m in MockMessages ==> HasUser(MockUsers, m.receiverId)
  {
    var receiverOf := [1, 0, 1, 0, 1, 0, 1, 0, 2, 0, 2, 0];
    assert forall i :: 0 <= i < |MockMessages| ==> MockUsers[receiverOf[i]].id == MockMessages[i].receiverId;
    forall m | m in MockMessages ensures HasUser(MockUsers, m.receiverId) {
      var i :| 0 <= i < |MockMessages| && MockMessages[i] == m;
      assert MockUsers[receiverOf[i]] in MockUsers;
    }
  }

  lemma SeedNoSelfMessages()
    ensures forall m :: m in MockMessages ==> m.senderId != m.receiverId
  {
  }

  /** The last message by time in `s`, the later one on a tie. */
  function Latest(s: seq<Message>): (r: Option<Message>)
    ensures r.None? <==> |s| == 0
    ensures r.Some? ==> r.value in s
    ensures r.Some? ==> forall m :: m in s ==> m.createdAt <= r.value.createdAt
  {
    if |s| == 0 then None
    else
      var last := s[|s| - 1];
      assert s == s[..|s| - 1] + [last];
      match Latest(s[..|s| - 1])
      case None => Some(last)
      case Some(m) => if m.createdAt <= last.createdAt then Some(last) else Some(m)
  }

  /**
   * A conversation's cached fields agree with the messages: it joins two
   * different users, its last message is the latest message between them,
   * and its unread count is the number of unread messages between them.
   */
  predicate ConversationAgrees(c: Conversation, messages: seq<Message>) {
    && |c.participants| == 2
    && c.participants[0] != c.participants[1]
    && var a, b := c.participants[0], c.participants[1];
       var thread := Filter(messages, BetweenPair(a, b));
       && Latest(thread).Some?
       && Latest(thread).value.content == c.lastMessage
       && Latest(thread).value.createdAt == c.lastMessageAt
       && c.unreadCount == |Filter(thread, IsUnread)|
  }

  /** When every other message is strictly earlier than the last one, the latest message is the last one. */
  lemma LatestIsLast(s: seq<Message>)
    requires |s| > 0
    requires forall i :: 0 <= i < |s| - 1 ==> s[i].createdAt < s[|s| - 1].createdAt
    ensures Latest(s) == Some(s[|s| - 1])
  {
    var r := Latest(s).value;
    var k :| 0 <= k < |s| && s[k] == r;
    assert s[|s| - 1].createdAt <= r.createdAt;
  }

  /** When only the last message of `thread` is unread, exactly one is. */
  lemma {:induction false} OnlyLastUnread(thread: seq<Message>)
    requires |thread| > 0
    requires forall i :: 0 <= i < |thread| - 1 ==> thread[i].read
    requires !thread[|thread| - 1].read
    ensures |Filter(thread, IsUnread)| == 1
  {
    var n := |thread| - 1;
    assert thread == thread[..n] + [thread[n]];
    FilterOnlyLast(thread[..n], thread[n], IsUnread);
  }

  /** Filtering a sequence that passes only at its last element keeps just that element. */
  lemma {:induction false} FilterOnlyLast<T(!new)>(init: seq<T>, last: T, p: T -> bool)
    requires forall i :: 0 <= i < |init| ==> !p(init[i])
    requires p(last)
    ensures Filter(init + [last], p) == [last]
  {
    FilterAppend(init, [last], p);
    FilterDropsAll(init, p);
    FilterKeepsAll([last], p);
  }

  /** Filtering `before + thread + after` by a predicate that holds exactly on `thread` gives `thread`. */
  lemma ThreadOfParts(before: seq<Message>, thread: seq<Message>, after: seq<Message>, a: string, b: string)
    requires forall i :: 0 <= i < |before| ==> !Between(before[i], a, b)
    requires forall i :: 0 <= i < |after| ==> !Between(after[i], a, b)
    requires forall i :: 0 <= i < |thread| ==> Between(thread[i], a, b)
    ensures Filter(before + thread + after, BetweenPair(a, b)) == thread
  {
    var between := BetweenPair(a, b);
    FilterAppend(before + thread, after, between);
    FilterAppend(before, thread, between);
    FilterDropsAll(before, between);
    FilterKeepsAll(thread, between);
    FilterDropsAll(after, between);
  }

  /**
   * The cached fields of `c` agree with `before + thread + after` when the
   * messages between its participants are exactly `thread`, the last of
   * them is strictly the latest, the cache names the last of them, and exactly the last is unread.
   */
  lemma AgreesWithThread(c: Conversation, before: seq<Message>, thread: seq<Message>, after: seq<Message>)
    requires |c.participants| == 2 && c.participants[0] != c.participants[1]
    requires forall i :: 0 <= i < |before| ==> !Between(before[i], c.participants[0], c.participants[1])
    requires forall i :: 0 <= i < |after| ==> !Between(after[i], c.participants[0], c.participants[1])
    requires forall i :: 0 <= i < |thread| ==> Between(thread[i], c.participants[0], c.participants[1])
    requires |thread| > 0
    requires forall i :: 0 <= i < |thread| - 1 ==> thread[i].createdAt < thread[|thread| - 1].createdAt
    requires thread[|thread| - 1].content == c.lastMessage && thread[|thread| - 1].createdAt == c.lastMessageAt
    requires forall i :: 0 <= i < |thread| - 1 ==> thread[i].read
    requires !thread[|thread| - 1].read && c.unreadCount == 1
    ensures ConversationAgrees(c, before + thread + after)
  {
    ThreadOfParts(before, thread, after, c.participants[0], c.participants[1]);
    LatestIsLast(thread);
    OnlyLastUnread(thread);
  }

  /** conv-1 caches msg-7, the last of msg-1 .. msg-7, the only unread message between user-1 and user-2. */
  lemma SeedFirstConversationAgrees()
    ensures ConversationAgrees(MockConversations[0], MockMessages)
  {
    var thread, after := MockMessages[..7], MockMessages[7..];
    assert MockMessages == [] + thread + after;
    var c := MockConversations[0];
    assert |thread| == 7 && thread[6] == MockMessages[6];
    assert thread[6].content == c.lastMessage && thread[6].createdAt == c.lastMessageAt;
    assert !thread[6].read && c.unreadCount == 1;
    AgreesWithThread(MockConversations[0], [], thread, after);
  }

  /** conv-2 caches msg-12, the last of msg-8 .. msg-12, the only unread message between user-1 and user-3. */
  lemma SeedSecondConversationAgrees()
    ensures ConversationAgrees(MockConversations[1], MockMessages)
  {
    var before, thread := MockMessages[..7], MockMessages[7..];
    assert MockMessages == before + thread + [];
    var c := MockConversations[1];
    assert |thread| == 5 && thread[4] == MockMessages[11];
    assert thread[4].content == c.lastMessage && thread[4].createdAt == c.lastMessageAt;
    assert !thread[4].read && c.unreadCount == 1;
    AgreesWithThread(MockConversations[1], before, thread, []);
  }
}
