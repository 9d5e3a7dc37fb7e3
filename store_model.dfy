/** The state of `MemStorage` (server/storage.ts) as a value, and each of its methods as a
    function from the old state to the new state and the result. The class `Storage.MemStorage`
    performs these steps in place; its methods are proved to agree with these functions. */
module StoreModel {
  import opened Optional
  import opened Seqs
  import opened Schema

  /** The six maps and the six id counters of `MemStorage`. */
  datatype Store = Store(
    users: map<int, User>,
    documents: map<int, Document>,
    lostDocuments: map<int, LostDocument>,
    foundDocuments: map<int, FoundDocument>,
    conversations: map<int, Conversation>,
    messages: map<int, Chat>,
    userId: int,
    documentId: int,
    lostDocumentId: int,
    foundDocumentId: int,
    conversationId: int,
    messageId: int)

  /** The errors the store throws. */
  datatype StoreError =
    | UserNotFound(id: int)                      // updateUser on an unknown id
    | MissingDocumentOrUser(lostDocumentId: int) // getLostDocuments on a dangling report

  datatype Outcome<T> = Ok(value: T) | Fail(error: StoreError)

  /** The store's invariant: counters start at 1, every key is below its counter (so the
      next id is fresh) and every record carries its own key as its id. */
  predicate Valid(s: Store) {
    && 1 <= s.userId && 1 <= s.documentId && 1 <= s.lostDocumentId
    && 1 <= s.foundDocumentId && 1 <= s.conversationId && 1 <= s.messageId
    && (forall k :: k in s.users ==> 1 <= k < s.userId && s.users[k].id == k)
    && (forall k :: k in s.documents ==> 1 <= k < s.documentId && s.documents[k].id == k)
    && (forall k :: k in s.lostDocuments ==> 1 <= k < s.lostDocumentId && s.lostDocuments[k].id == k)
    && (forall k :: k in s.foundDocuments ==> 1 <= k < s.foundDocumentId && s.foundDocuments[k].id == k)
    && (forall k :: k in s.conversations ==> 1 <= k < s.conversationId && s.conversations[k].id == k)
    && (forall k :: k in s.messages ==> 1 <= k < s.messageId && s.messages[k].id == k)
  }

  /** The store right after its six maps are created and its counters set to 1. */
  const Empty := Store(map[], map[], map[], map[], map[], map[], 1, 1, 1, 1, 1, 1)

  // ---------------------------------------------------------------------------------------
  // Enumeration. A `Map` iterates in insertion order. Every new key is the counter, above
  // all present keys, and a set on a present key keeps its place, so insertion order is
  // ascending key order: `Listed` enumerates the keys 1 .. counter - 1 in that order.

  /** The keys of `m` in [lo, hi), ascending. */
  function KeysIn<T>(m: map<int, T>, lo: int, hi: int): (r: seq<int>)
    ensures forall i :: 0 <= i < |r| ==> r[i] in m && lo <= r[i] < hi
    ensures forall k :: k in m && lo <= k < hi ==> k in r
    ensures forall i, j :: 0 <= i < j < |r| ==> r[i] < r[j]
    decreases hi - lo
  {
    if lo >= hi then []
    else if lo in m then [lo] + KeysIn(m, lo + 1, hi)
    else KeysIn(m, lo + 1, hi)
  }

  /** `Array.from(m.values())`. */
  function Listed<T(==)>(m: map<int, T>, bound: int): (r: seq<T>)
    ensures forall i :: 0 <= i < |r| ==> r[i] in m.Values
    ensures forall k :: k in m && 1 <= k < bound ==> m[k] in r
    ensures |r| == |KeysIn(m, 1, bound)|
    ensures forall i :: 0 <= i < |r| ==> r[i] == m[KeysIn(m, 1, bound)[i]]
  {
    var ks := KeysIn(m, 1, bound);
    var r := seq(|ks|, i requires 0 <= i < |ks| => m[ks[i]]);
    assert forall i :: 0 <= i < |ks| ==> r[i] == m[ks[i]];
    r
  }

  // ---------------------------------------------------------------------------------------
  // Users

  function GetUser(s: Store, id: int): (r: Option<User>)
    requires Valid(s)
    ensures r.Some? <==> id in s.users
    ensures r.Some? ==> r.value == s.users[id] && r.value.id == id
  {
    if id in s.users then Some(s.users[id]) else None
  }

  /** `getUserByUsername`: the first user, in insertion order, with that username. */
  function GetUserByUsername(s: Store, username: string): (r: Option<User>)
    requires Valid(s)
    ensures r.None? <==> forall k :: k in s.users ==> s.users[k].username != username
    ensures r.Some? ==> r.value.id in s.users && s.users[r.value.id] == r.value
    ensures r.Some? ==> r.value.username == username
  {
    Find(Listed(s.users, s.userId), (u: User) => u.username == username)
  }

  /** `createUser`: the user gets the current counter as its id and the counter moves on. */
  function CreateUser(s: Store, ins: InsertUser): (r: (Store, User))
    requires Valid(s)
    ensures Valid(r.0)
    ensures r.1 == NewUser(ins, s.userId)
    ensures r.1.id !in s.users && forall k :: k in s.users ==> k < r.1.id
    ensures r.0.users == s.users[r.1.id := r.1] && r.0.userId == r.1.id + 1
    ensures r.0.(users := s.users, userId := s.userId) == s
  {
    var id := s.userId;
    var user := NewUser(ins, id);
    (s.(users := s.users[id := user], userId := id + 1), user)
  }

  /** `updateUser`: throws on an unknown id; otherwise merges the patch and stamps `updatedAt`. */
  function UpdateUser(s: Store, id: int, data: UserPatch, now: int): (r: Outcome<(Store, User)>)
    requires Valid(s)
    ensures r.Fail? <==> id !in s.users
    ensures r.Fail? ==> r.error == UserNotFound(id)
    ensures r.Ok? ==> Valid(r.value.0) && r.value.1 == MergeUser(s.users[id], data, now)
    ensures r.Ok? ==> r.value.0 == s.(users := s.users[id := r.value.1])
  {
    if id !in s.users then Fail(UserNotFound(id))
    else
      var user := MergeUser(s.users[id], data, now);
      Ok((s.(users := s.users[id := user]), user))
  }

  // ---------------------------------------------------------------------------------------
  // Documents

  function GetDocument(s: Store, id: int): (r: Option<Document>)
    requires Valid(s)
    ensures r.Some? <==> id in s.documents
    ensures r.Some? ==> r.value == s.documents[id] && r.value.id == id
  {
    if id in s.documents then Some(s.documents[id]) else None
  }

  /** `getDocumentsByUserId`: exactly the documents the user owns, in insertion order. */
  function GetDocumentsByUserId(s: Store, userId: int): (r: seq<Document>)
    requires Valid(s)
    ensures forall i :: 0 <= i < |r| ==> r[i].userId == userId && r[i] in s.documents.Values
    ensures forall k :: k in s.documents && s.documents[k].userId == userId ==> s.documents[k] in r
  {
    Filter(Listed(s.documents, s.documentId), (d: Document) => d.userId == userId)
  }

  /** `createDocument`: no side effect beyond storing the new document. */
  function CreateDocument(s: Store, ins: InsertDocument, now: int): (r: (Store, Document))
    requires Valid(s)
    ensures Valid(r.0)
    ensures r.1 == NewDocument(ins, s.documentId, now)
    ensures r.1.id !in s.documents && forall k :: k in s.documents ==> k < r.1.id
    ensures r.0.documents == s.documents[r.1.id := r.1] && r.0.documentId == r.1.id + 1
    ensures r.0.(documents := s.documents, documentId := s.documentId) == s
  {
    var id := s.documentId;
    var document := NewDocument(ins, id, now);
    (s.(documents := s.documents[id := document], documentId := id + 1), document)
  }

  /** `getLostDocumentByDocumentId`: the first report, in insertion order, on that document. */
  function ReportFor(reports: map<int, LostDocument>, bound: int, documentId: int): Option<LostDocument>
  {
    Find(Listed(reports, bound), (l: LostDocument) => l.documentId == documentId)
  }

  /** A report present below the counter is found by `ReportFor`. */
  lemma ReportListed(reports: map<int, LostDocument>, bound: int, k: int)
    requires k in reports && 1 <= k < bound
    ensures ReportFor(reports, bound, reports[k].documentId).Some?
  {
    var l := Listed(reports, bound);
    assert reports[k] in l;
  }

  /** The value of an optional text property of a patch (`data.x`, `undefined` when absent). */
  function PatchText(f: Field<Option<string>>): Option<string> {
    if f.Set? then f.value else None
  }

  /** The report `updateDocument` files when it marks document `id` lost (storage.ts:162-168). */
  function ReportOnMarkLost(id: int, document: Document, data: DocumentPatch, now: int): InsertLostDocument {
    InsertLostDocument(id, document.userId, now,
                       Some(OrElse(PatchText(data.lostLocation), "")),
                       OrElse(PatchText(data.description), document.name + " was reported lost."))
  }

  /** The patch `createLostDocument` applies to the reported document (storage.ts:241-245). */
  function MarkLostPatch(ins: InsertLostDocument): DocumentPatch {
    NoDocumentChange.(status := Set("lost"), lostAt := Set(Some(ins.lostAt)),
                      lostLocation := Set(ins.lostLocation))
  }

  /** `updateDocument`: on an unknown id, nothing. Otherwise merges the patch and, when the
      patch sets status "lost" and no report on the document exists yet, files one through
      `createLostDocument`. It returns the document as merged before that nested call. */
  function UpdateDocument(s: Store, id: int, data: DocumentPatch, now: int): (r: (Store, Option<Document>))
    requires Valid(s)
    ensures Valid(r.0)
    ensures id !in s.documents ==> r == (s, None)
    ensures id in s.documents ==> r.1 == Some(MergeDocument(s.documents[id], data, now))
    ensures r.0.documents.Keys == s.documents.Keys
    decreases if ReportFor(s.lostDocuments, s.lostDocumentId, id).Some? then 0 else 2
  {
    if id !in s.documents then (s, None)
    else
      var document := s.documents[id];
      var updated := MergeDocument(document, data, now);
      var s1 := s.(documents := s.documents[id := updated]);
      if data.status == Set("lost") && ReportFor(s1.lostDocuments, s1.lostDocumentId, id).None? then
        var (s2, _) := CreateLostDocument(s1, ReportOnMarkLost(id, document, data, now), now);
        (s2, Some(updated))
      else
        (s1, Some(updated))
  }

  /** `deleteDocument`: removes only that key; reports on the document stay. */
  function DeleteDocument(s: Store, id: int): (r: (Store, bool))
    requires Valid(s)
    ensures Valid(r.0)
    ensures r.1 <==> id in s.documents
    ensures r.0.documents == s.documents - {id}
    ensures r.0.(documents := s.documents) == s
  {
    (s.(documents := s.documents - {id}), id in s.documents)
  }

  // ---------------------------------------------------------------------------------------
  // Lost reports

  /** A report whose document and reporter are both present. */
  predicate Joinable(s: Store, l: LostDocument) {
    l.documentId in s.documents && l.userId in s.users
  }

  function Join(s: Store, l: LostDocument): LostDocumentView
    requires Joinable(s, l)
  {
    LostDocumentView(l, s.documents[l.documentId], s.users[l.userId])
  }

  /** The join of `getLostDocuments` over a list of reports: it throws for the first report
      whose document or user is missing. */
  function JoinAll(s: Store, reports: seq<LostDocument>): (r: Outcome<seq<LostDocumentView>>)
    ensures r.Ok? <==> forall i :: 0 <= i < |reports| ==> Joinable(s, reports[i])
    ensures r.Ok? ==> |r.value| == |reports|
    ensures r.Ok? ==> forall i :: 0 <= i < |reports| ==> Joinable(s, reports[i]) && r.value[i] == Join(s, reports[i])
    ensures r.Fail? ==> exists i :: 0 <= i < |reports| && !Joinable(s, reports[i])
                                  && r.error == MissingDocumentOrUser(reports[i].id)
  {
    if reports == [] then Ok([])
    else if !Joinable(s, reports[0]) then Fail(MissingDocumentOrUser(reports[0].id))
    else match JoinAll(s, reports[1..])
      case Ok(rest) => Ok([Join(s, reports[0])] + rest)
      case Fail(e) => Fail(e)
  }

  /** `getLostDocuments`. */
  function GetLostDocuments(s: Store): Outcome<seq<LostDocumentView>>
  {
    JoinAll(s, Listed(s.lostDocuments, s.lostDocumentId))
  }

  /** `getLostDocument`: absent when the report, its document or its user is missing. */
  function GetLostDocument(s: Store, id: int): (r: Option<LostDocumentView>)
    ensures r.Some? <==> id in s.lostDocuments && Joinable(s, s.lostDocuments[id])
    ensures r.Some? ==> r.value == Join(s, s.lostDocuments[id])
  {
    if id in s.lostDocuments && Joinable(s, s.lostDocuments[id]) then Some(Join(s, s.lostDocuments[id]))
    else None
  }

  /** `createLostDocument`: stores the report first, then marks the document lost through
      `updateDocument`, which now sees the report and files no second one. Returns the
      joined report, absent when its document or user is missing. */
  function CreateLostDocument(s: Store, ins: InsertLostDocument, now: int): (r: (Store, Option<LostDocumentView>))
    requires Valid(s)
    ensures Valid(r.0)
    ensures r.0.documents.Keys == s.documents.Keys
    decreases 1
  {
    var id := s.lostDocumentId;
    var report := NewLostDocument(ins, id);
    var s1 := s.(lostDocuments := s.lostDocuments[id := report], lostDocumentId := id + 1);
    ReportListed(s1.lostDocuments, s1.lostDocumentId, id);
    var s2 := UpdateDocument(s1, ins.documentId, MarkLostPatch(ins), now).0;
    (s2, GetLostDocument(s2, id))
  }

  /** `createLostDocument` in its two steps: storing the report, then `updateDocument` on the
      store that holds it. */
  lemma CreateLostDocumentStages(s: Store, ins: InsertLostDocument, now: int, s1: Store, s2: Store, r: Option<LostDocumentView>)
    requires Valid(s) && Valid(s1)
    requires s1 == s.(lostDocuments := s.lostDocuments[s.lostDocumentId := NewLostDocument(ins, s.lostDocumentId)],
                      lostDocumentId := s.lostDocumentId + 1)
    requires s2 == UpdateDocument(s1, ins.documentId, MarkLostPatch(ins), now).0
    requires r == GetLostDocument(s2, s.lostDocumentId)
    ensures CreateLostDocument(s, ins, now) == (s2, r)
  {
    var id := s.lostDocumentId;
    ReportListed(s1.lostDocuments, s1.lostDocumentId, id);
    assert CreateLostDocument(s, ins, now).0 == s2;
  }

  // ---------------------------------------------------------------------------------------
  // Found reports

  /** `getFoundDocuments`: every found report, in insertion order. */
  function GetFoundDocuments(s: Store): (r: seq<FoundDocument>)
    requires Valid(s)
    ensures forall i :: 0 <= i < |r| ==> r[i] in s.foundDocuments.Values
    ensures forall k :: k in s.foundDocuments ==> s.foundDocuments[k] in r
  {
    Listed(s.foundDocuments, s.foundDocumentId)
  }

  function GetFoundDocument(s: Store, id: int): (r: Option<FoundDocument>)
    requires Valid(s)
    ensures r.Some? <==> id in s.foundDocuments
    ensures r.Some? ==> r.value == s.foundDocuments[id] && r.value.id == id
  {
    if id in s.foundDocuments then Some(s.foundDocuments[id]) else None
  }

  /** The patch that awards points (storage.ts:273-275). */
  function PointsPatch(points: int): UserPatch {
    NoUserChange.(points := Set(points))
  }

  /** `createFoundDocument`: stores the report and, when the finder exists, adds 20 points
      to the finder through `updateUser`. */
  function CreateFoundDocument(s: Store, ins: InsertFoundDocument, now: int): (r: (Store, FoundDocument))
    requires Valid(s)
    ensures Valid(r.0)
    ensures r.1 == NewFoundDocument(ins, s.foundDocumentId, now)
    ensures r.1.id !in s.foundDocuments && forall k :: k in s.foundDocuments ==> k < r.1.id
    ensures r.0.foundDocuments == s.foundDocuments[r.1.id := r.1] && r.0.foundDocumentId == r.1.id + 1
  {
    var id := s.foundDocumentId;
    var found := NewFoundDocument(ins, id, now);
    var s1 := s.(foundDocuments := s.foundDocuments[id := found], foundDocumentId := id + 1);
    if ins.foundBy in s1.users then
      var finder := s1.users[ins.foundBy];
      var awarded := UpdateUser(s1, finder.id, PointsPatch(finder.points + 20), now);
      (awarded.value.0, found)
    else
      (s1, found)
  }

  /** `createFoundDocument` in its two steps: storing the report, then crediting the
      finder when they exist. */
  lemma CreateFoundDocumentStages(s: Store, ins: InsertFoundDocument, now: int, s1: Store, s2: Store)
    requires Valid(s) && Valid(s1)
    requires s1 == s.(foundDocuments := s.foundDocuments[s.foundDocumentId := NewFoundDocument(ins, s.foundDocumentId, now)],
                      foundDocumentId := s.foundDocumentId + 1)
    requires ins.foundBy in s1.users ==>
               s2 == UpdateUser(s1, ins.foundBy, PointsPatch(s1.users[ins.foundBy].points + 20), now).value.0
    requires ins.foundBy !in s1.users ==> s2 == s1
    ensures CreateFoundDocument(s, ins, now) == (s2, NewFoundDocument(ins, s.foundDocumentId, now))
  {
  }

  // ---------------------------------------------------------------------------------------
  // Conversations and messages

  /** `getConversationsByUserId`: the conversations the user takes part in, in insertion order. */
  function GetConversationsByUserId(s: Store, userId: int): (r: seq<Conversation>)
    requires Valid(s)
    ensures forall i :: 0 <= i < |r| ==> userId in r[i].participants && r[i] in s.conversations.Values
    ensures forall k :: k in s.conversations && userId in s.conversations[k].participants ==> s.conversations[k] in r
  {
    Filter(Listed(s.conversations, s.conversationId), (c: Conversation) => userId in c.participants)
  }

  function GetConversation(s: Store, id: int): (r: Option<Conversation>)
    requires Valid(s)
    ensures r.Some? <==> id in s.conversations
    ensures r.Some? ==> r.value == s.conversations[id] && r.value.id == id
  {
    if id in s.conversations then Some(s.conversations[id]) else None
  }

  /** `createConversation`. */
  function CreateConversation(s: Store, ins: InsertConversation, now: int): (r: (Store, Conversation))
    requires Valid(s)
    ensures Valid(r.0)
    ensures r.1 == NewConversation(ins, s.conversationId, now) && r.1.lastMessage == None
    ensures r.1.id !in s.conversations && forall k :: k in s.conversations ==> k < r.1.id
    ensures r.0.conversations == s.conversations[r.1.id := r.1] && r.0.conversationId == r.1.id + 1
    ensures r.0.(conversations := s.conversations, conversationId := s.conversationId) == s
  {
    var id := s.conversationId;
    var conversation := NewConversation(ins, id, now);
    (s.(conversations := s.conversations[id := conversation], conversationId := id + 1), conversation)
  }

  predicate SortedByTime(s: seq<Chat>) {
    forall i, j :: 0 <= i < j < |s| ==> s[i].timestamp <= s[j].timestamp
  }

  /** Inserts `c` before the first message that is not earlier than it. */
  function InsertByTime(c: Chat, s: seq<Chat>): seq<Chat>
  {
    if s == [] || c.timestamp <= s[0].timestamp then [c] + s
    else [s[0]] + InsertByTime(c, s[1..])
  }

  lemma {:induction false} InsertByTimeCorrect(c: Chat, s: seq<Chat>)
    requires SortedByTime(s)
    ensures SortedByTime(InsertByTime(c, s))
    ensures multiset(InsertByTime(c, s)) == multiset(s) + multiset{c}
  {
    if s != [] && c.timestamp > s[0].timestamp {
      var rest := InsertByTime(c, s[1..]);
      InsertByTimeCorrect(c, s[1..]);
      assert s == [s[0]] + s[1..];
      forall j | 0 <= j < |rest| ensures s[0].timestamp <= rest[j].timestamp {
        assert rest[j] in multiset(rest);
        if rest[j] != c {
          assert rest[j] in multiset(s[1..]);
        }
      }
    }
  }

  /** `.sort((a, b) => a.timestamp - b.timestamp)`, by insertion. */
  function SortByTime(s: seq<Chat>): seq<Chat>
  {
    if s == [] then [] else InsertByTime(s[0], SortByTime(s[1..]))
  }

  /** The sort orders by timestamp and neither loses nor adds a message. */
  lemma {:induction false} SortByTimeCorrect(s: seq<Chat>)
    ensures SortedByTime(SortByTime(s))
    ensures multiset(SortByTime(s)) == multiset(s)
  {
    if s != [] {
      SortByTimeCorrect(s[1..]);
      InsertByTimeCorrect(s[0], SortByTime(s[1..]));
      assert s == [s[0]] + s[1..];
    }
  }

  /** The filter `msg => msg.conversationId === conversationId`. */
  function InConversation(conversationId: int): Chat -> bool {
    (m: Chat) => m.conversationId == conversationId
  }

  /** `getMessagesByConversationId`: that conversation's messages, earliest first. */
  function GetMessagesByConversationId(s: Store, conversationId: int): (r: seq<Chat>)
    requires Valid(s)
    ensures SortedByTime(r)
    ensures forall i :: 0 <= i < |r| ==> r[i].conversationId == conversationId && r[i] in s.messages.Values
    ensures forall k :: k in s.messages && s.messages[k].conversationId == conversationId ==> s.messages[k] in r
  {
    var mine := Filter(Listed(s.messages, s.messageId), InConversation(conversationId));
    SortByTimeSameElements(mine);
    SortByTime(mine)
  }

  /** The sort is ordered and holds exactly the messages it was given. */
  lemma SortByTimeSameElements(s: seq<Chat>)
    ensures SortedByTime(SortByTime(s))
    ensures forall i :: 0 <= i < |SortByTime(s)| ==> SortByTime(s)[i] in s
    ensures forall x :: x in s ==> x in SortByTime(s)
  {
    SortByTimeCorrect(s);
    var r := SortByTime(s);
    assert forall i :: 0 <= i < |r| ==> r[i] in multiset(r);
    assert forall x :: x in multiset(s) <==> x in s;
  }

  /** `createMessage`: stores the message and, when its conversation exists, makes it that
      conversation's `lastMessage`. */
  function CreateMessage(s: Store, ins: InsertChat, now: int): (r: (Store, Chat))
    requires Valid(s)
    ensures Valid(r.0)
    ensures r.1 == NewChat(ins, s.messageId, now)
    ensures r.1.id !in s.messages && forall k :: k in s.messages ==> k < r.1.id
    ensures r.0.messages == s.messages[r.1.id := r.1] && r.0.messageId == r.1.id + 1
  {
    var id := s.messageId;
    var message := NewChat(ins, id, now);
    var s1 := s.(messages := s.messages[id := message], messageId := id + 1);
    if ins.conversationId in s1.conversations then
      var conversation := s1.conversations[ins.conversationId];
      (s1.(conversations := s1.conversations[conversation.id := conversation.(lastMessage := Some(message))]), message)
    else
      (s1, message)
  }

  /** `createMessage` in its two steps: storing the message, then setting the
      `lastMessage` of its conversation when that exists. */
  lemma CreateMessageStages(s: Store, ins: InsertChat, now: int, s1: Store, s2: Store)
    requires Valid(s) && Valid(s1)
    requires s1 == s.(messages := s.messages[s.messageId := NewChat(ins, s.messageId, now)],
                      messageId := s.messageId + 1)
    requires ins.conversationId in s1.conversations ==>
               s2 == s1.(conversations := s1.conversations[ins.conversationId :=
                           s1.conversations[ins.conversationId].(lastMessage := Some(NewChat(ins, s.messageId, now)))])
    requires ins.conversationId !in s1.conversations ==> s2 == s1
    ensures CreateMessage(s, ins, now) == (s2, NewChat(ins, s.messageId, now))
  {
  }

  // ---------------------------------------------------------------------------------------
  // Demo data

  const DemoUser := InsertUser("demo", "demo123", "demo@example.com", "+258 84 123 4567", 25, "free", None)
  const DemoIdCard := InsertDocument(1, "ID Card", "National ID Card", "DEMO12345", None, "active",
                                     None, None, None, None, None)

  /** `initializeDemoData`: the demo user and one document of theirs. */
  function InitializeDemoData(s: Store, now: int): (r: Store)
    requires Valid(s)
    ensures Valid(r)
  {
    var (s1, _) := CreateUser(s, DemoUser);
    var (s2, _) := CreateDocument(s1, DemoIdCard, now);
    s2
  }
}
