/** `MemStorage` (server/storage.ts) as a class: six maps and six counters that its methods
    update in place. Each method is proved to leave the state and return the result that the
    corresponding function of `StoreModel` computes, so every property proved about those
    functions holds for the class. */
module Storage {
  import opened Optional
  import opened Seqs
  import opened Schema
  import opened StoreModel

  class MemStorage {
    var users: map<int, User>
    var documents: map<int, Document>
    var lostDocuments: map<int, LostDocument>
    var foundDocuments: map<int, FoundDocument>
    var conversations: map<int, Conversation>
    var messages: map<int, Chat>
    var userId: int
    var documentId: int
    var lostDocumentId: int
    var foundDocumentId: int
    var conversationId: int
    var messageId: int

    /** The fields as one value. */
    function State(): Store
      reads this
    {
      Store(users, documents, lostDocuments, foundDocuments, conversations, messages,
            userId, documentId, lostDocumentId, foundDocumentId, conversationId, messageId)
    }

    ghost predicate Valid()
      reads this
    {
      StoreModel.Valid(State())
    }

    /** Empty maps, every counter at 1, then the demo data. */
    constructor(now: int)
      ensures Valid() && State() == StoreModel.InitializeDemoData(Empty, now)
    {
      users := map[];
      documents := map[];
      lostDocuments := map[];
      foundDocuments := map[];
      conversations := map[];
      messages := map[];
      userId := 1;
      documentId := 1;
      lostDocumentId := 1;
      foundDocumentId := 1;
      conversationId := 1;
      messageId := 1;
      new;
      InitializeDemoData(now);
    }

    method InitializeDemoData(now: int)
      requires Valid()
      modifies this
      ensures Valid() && State() == StoreModel.InitializeDemoData(old(State()), now)
    {
      var _ := CreateUser(DemoUser);
      var _ := CreateDocument(DemoIdCard, now);
    }

    // Users

    method GetUser(id: int) returns (r: Option<User>)
      requires Valid()
      ensures r == StoreModel.GetUser(State(), id)
    {
      if id in users {
        r := Some(users[id]);
      } else {
        r := None;
      }
    }

    method GetUserByUsername(username: string) returns (r: Option<User>)
      requires Valid()
      ensures r == StoreModel.GetUserByUsername(State(), username)
    {
      r := Find(Listed(users, userId), (u: User) => u.username == username);
    }

    method CreateUser(ins: InsertUser) returns (u: User)
      requires Valid()
      modifies this
      ensures Valid()
      ensures (State(), u) == StoreModel.CreateUser(old(State()), ins)
    {
      var id := userId;
      userId := userId + 1;
      u := NewUser(ins, id);
      users := users[id := u];
    }

    method UpdateUser(id: int, data: UserPatch, now: int) returns (r: Outcome<User>)
      requires Valid()
      modifies this
      ensures Valid()
      ensures match StoreModel.UpdateUser(old(State()), id, data, now)
              case Fail(e) => r == Fail(e) && State() == old(State())
              case Ok((s, u)) => r == Ok(u) && State() == s
    {
      var user := GetUser(id);
      if user.None? {
        r := Fail(UserNotFound(id));
        return;
      }
      var updated := MergeUser(user.value, data, now);
      users := users[id := updated];
      r := Ok(updated);
    }

    // Documents

    method GetDocument(id: int) returns (r: Option<Document>)
      requires Valid()
      ensures r == StoreModel.GetDocument(State(), id)
    {
      if id in documents {
        r := Some(documents[id]);
      } else {
        r := None;
      }
    }

    method GetDocumentsByUserId(owner: int) returns (r: seq<Document>)
      requires Valid()
      ensures r == StoreModel.GetDocumentsByUserId(State(), owner)
    {
      r := Filter(Listed(documents, documentId), (d: Document) => d.userId == owner);
    }

    method CreateDocument(ins: InsertDocument, now: int) returns (d: Document)
      requires Valid()
      modifies this
      ensures Valid()
      ensures (State(), d) == StoreModel.CreateDocument(old(State()), ins, now)
    {
      var id := documentId;
      documentId := documentId + 1;
      d := NewDocument(ins, id, now);
      documents := documents[id := d];
    }

    /** Merges the patch and, when it sets status "lost" and no report on the document exists
        yet, files one through `CreateLostDocument`, which calls back into this method. */
    method UpdateDocument(id: int, data: DocumentPatch, now: int) returns (r: Option<Document>)
      requires Valid()
      modifies this
      ensures Valid()
      ensures (State(), r) == StoreModel.UpdateDocument(old(State()), id, data, now)
      decreases if ReportFor(lostDocuments, lostDocumentId, id).Some? then 0 else 2
    {
      ghost var s := State();
      var document := GetDocument(id);
      if document.None? {
        return None;
      }
      var updated := MergeDocument(document.value, data, now);
      documents := documents[id := updated];
      ghost var s1 := s.(documents := s.documents[id := updated]);
      assert State() == s1 && StoreModel.Valid(s1);
      if data.status == Set("lost") {
        var existing := GetLostDocumentByDocumentId(id);
        if existing.None? {
          var _ := CreateLostDocument(ReportOnMarkLost(id, document.value, data, now), now);
        }
      }
      r := Some(updated);
    }

    method DeleteDocument(id: int) returns (found: bool)
      requires Valid()
      modifies this
      ensures Valid()
      ensures (State(), found) == StoreModel.DeleteDocument(old(State()), id)
    {
      found := id in documents;
      documents := documents - {id};
    }

    // Lost reports

    method GetLostDocuments() returns (r: Outcome<seq<LostDocumentView>>)
      requires Valid()
      ensures r == StoreModel.GetLostDocuments(State())
    {
      r := JoinAll(State(), Listed(lostDocuments, lostDocumentId));
    }

    method GetLostDocument(id: int) returns (r: Option<LostDocumentView>)
      requires Valid()
      ensures r == StoreModel.GetLostDocument(State(), id)
    {
      if id !in lostDocuments {
        return None;
      }
      var report := lostDocuments[id];
      var document := GetDocument(report.documentId);
      var user := GetUser(report.userId);
      if document.None? || user.None? {
        return None;
      }
      r := Some(LostDocumentView(report, document.value, user.value));
    }

    method GetLostDocumentByDocumentId(target: int) returns (r: Option<LostDocument>)
      requires Valid()
      ensures r == ReportFor(lostDocuments, lostDocumentId, target)
    {
      r := Find(Listed(lostDocuments, lostDocumentId), (l: LostDocument) => l.documentId == target);
    }

    /** Stores the report, then marks its document lost through `UpdateDocument`, which now
        finds the report and files no other. */
    method CreateLostDocument(ins: InsertLostDocument, now: int) returns (r: Option<LostDocumentView>)
      requires Valid()
      modifies this
      ensures Valid()
      ensures (State(), r) == StoreModel.CreateLostDocument(old(State()), ins, now)
      decreases 1
    {
      ghost var s := State();
      var id := StoreLostDocument(ins);
      ghost var s1 := State();
      ReportListed(lostDocuments, lostDocumentId, id);
      var _ := UpdateDocument(ins.documentId, MarkLostPatch(ins), now);
      ghost var s2 := State();
      r := GetLostDocument(id);
      StoreModel.CreateLostDocumentStages(s, ins, now, s1, s2, r);
    }

    /** The first step of `createLostDocument`: the report gets the current counter as its
        id and is stored. */
    method StoreLostDocument(ins: InsertLostDocument) returns (id: int)
      requires Valid()
      modifies this
      ensures id == old(lostDocumentId)
      ensures State() == old(State()).(lostDocuments := old(lostDocuments)[id := NewLostDocument(ins, id)], lostDocumentId := id + 1)
      ensures Valid() && id in lostDocuments && 1 <= id < lostDocumentId
      ensures lostDocuments[id].documentId == ins.documentId
    {
      id := lostDocumentId;
      lostDocumentId := lostDocumentId + 1;
      lostDocuments := lostDocuments[id := NewLostDocument(ins, id)];
    }

    // Found reports

    method GetFoundDocuments() returns (r: seq<FoundDocument>)
      requires Valid()
      ensures r == StoreModel.GetFoundDocuments(State())
    {
      r := Listed(foundDocuments, foundDocumentId);
    }

    method GetFoundDocument(id: int) returns (r: Option<FoundDocument>)
      requires Valid()
      ensures r == StoreModel.GetFoundDocument(State(), id)
    {
      if id in foundDocuments {
        r := Some(foundDocuments[id]);
      } else {
        r := None;
      }
    }

    /** Stores the report, then awards an existing finder 20 points through `UpdateUser`. */
    method CreateFoundDocument(ins: InsertFoundDocument, now: int) returns (f: FoundDocument)
      requires Valid()
      modifies this
      ensures Valid()
      ensures (State(), f) == StoreModel.CreateFoundDocument(old(State()), ins, now)
    {
      ghost var s := State();
      f := StoreFoundDocument(ins, now);
      ghost var s1 := State();
      var finder := GetUser(ins.foundBy);
      if finder.Some? {
        var _ := UpdateUser(finder.value.id, PointsPatch(finder.value.points + 20), now);
      }
      StoreModel.CreateFoundDocumentStages(s, ins, now, s1, State());
    }

    /** The first step of `createFoundDocument`: the report gets the current counter as its
        id and is stored. */
    method StoreFoundDocument(ins: InsertFoundDocument, now: int) returns (f: FoundDocument)
      requires Valid()
      modifies this
      ensures f == NewFoundDocument(ins, old(foundDocumentId), now)
      ensures State() == old(State()).(foundDocuments := old(foundDocuments)[f.id := f], foundDocumentId := f.id + 1)
      ensures Valid()
    {
      var id := foundDocumentId;
      foundDocumentId := foundDocumentId + 1;
      f := NewFoundDocument(ins, id, now);
      foundDocuments := foundDocuments[id := f];
    }

    // Conversations and messages

    method GetConversationsByUserId(participant: int) returns (r: seq<Conversation>)
      requires Valid()
      ensures r == StoreModel.GetConversationsByUserId(State(), participant)
    {
      r := Filter(Listed(conversations, conversationId), (c: Conversation) => participant in c.participants);
    }

    method GetConversation(id: int) returns (r: Option<Conversation>)
      requires Valid()
      ensures r == StoreModel.GetConversation(State(), id)
    {
      if id in conversations {
        r := Some(conversations[id]);
      } else {
        r := None;
      }
    }

    method CreateConversation(ins: InsertConversation, now: int) returns (c: Conversation)
      requires Valid()
      modifies this
      ensures Valid()
      ensures (State(), c) == StoreModel.CreateConversation(old(State()), ins, now)
    {
      var id := conversationId;
      conversationId := conversationId + 1;
      c := NewConversation(ins, id, now);
      conversations := conversations[id := c];
    }

    method GetMessagesByConversationId(conversation: int) returns (r: seq<Chat>)
      requires Valid()
      ensures r == StoreModel.GetMessagesByConversationId(State(), conversation)
    {
      r := SortByTime(Filter(Listed(messages, messageId), InConversation(conversation)));
    }

    /** Stores the message and makes it its conversation's `lastMessage`. */
    method CreateMessage(ins: InsertChat, now: int) returns (m: Chat)
      requires Valid()
      modifies this
      ensures Valid()
      ensures (State(), m) == StoreModel.CreateMessage(old(State()), ins, now)
    {
      ghost var s := State();
      m := StoreMessage(ins, now);
      ghost var s1 := State();
      var conversation := GetConversation(ins.conversationId);
      if conversation.Some? {
        conversations := conversations[conversation.value.id := conversation.value.(lastMessage := Some(m))];
      }
      StoreModel.CreateMessageStages(s, ins, now, s1, State());
    }

    /** The first step of `createMessage`: the message gets the current counter as its id
        and is stored. */
    method StoreMessage(ins: InsertChat, now: int) returns (m: Chat)
      requires Valid()
      modifies this
      ensures m == NewChat(ins, old(messageId), now)
      ensures State() == old(State()).(messages := old(messages)[m.id := m], messageId := m.id + 1)
      ensures Valid()
    {
      var id := messageId;
      messageId := messageId + 1;
      m := NewChat(ins, id, now);
      messages := messages[id := m];
    }
  }
}
