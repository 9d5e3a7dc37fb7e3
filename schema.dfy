/** The records of shared/schema.ts as the in-memory store keeps them. Timestamps are
    abstract integers; a column the source may leave `null`/`undefined` is an `Option`. */
module Schema {
  import opened Optional

  /** `LANGUAGES`: the languages the interface can be shown in. */
  const LANGUAGES: seq<string> := ["en", "pt"]

  datatype User = User(
    id: int,
    username: string,
    password: string,
    email: string,
    phoneNumber: string,
    points: int,
    subscriptionPlan: string,
    subscriptionEndDate: Option<int>,
    createdAt: Option<int>,
    updatedAt: Option<int>)

  /** `InsertUser`: a user without its id and timestamps. */
  datatype InsertUser = InsertUser(
    username: string,
    password: string,
    email: string,
    phoneNumber: string,
    points: int,
    subscriptionPlan: string,
    subscriptionEndDate: Option<int>)

  /** `Partial<User>` without `id`. */
  datatype UserPatch = UserPatch(
    username: Field<string>,
    password: Field<string>,
    email: Field<string>,
    phoneNumber: Field<string>,
    points: Field<int>,
    subscriptionPlan: Field<string>,
    subscriptionEndDate: Field<Option<int>>,
    createdAt: Field<Option<int>>,
    updatedAt: Field<Option<int>>)

  const NoUserChange := UserPatch(Keep, Keep, Keep, Keep, Keep, Keep, Keep, Keep, Keep)

  /** `{ ...insertUser, id }`: the user `createUser` stores; it sets neither timestamp. */
  function NewUser(ins: InsertUser, id: int): User {
    User(id, ins.username, ins.password, ins.email, ins.phoneNumber, ins.points,
         ins.subscriptionPlan, ins.subscriptionEndDate, None, None)
  }

  /** `{ ...user, ...data, updatedAt: now }`. */
  function MergeUser(u: User, data: UserPatch, now: int): User {
    User(u.id, data.username.Over(u.username), data.password.Over(u.password),
         data.email.Over(u.email), data.phoneNumber.Over(u.phoneNumber),
         data.points.Over(u.points), data.subscriptionPlan.Over(u.subscriptionPlan),
         data.subscriptionEndDate.Over(u.subscriptionEndDate),
         data.createdAt.Over(u.createdAt), Some(now))
  }

  /** A document a user owns. `kind` is the `type` column (`type` is a Dafny keyword). */
  datatype Document = Document(
    id: int,
    userId: int,
    kind: string,
    name: string,
    documentNumber: string,
    description: Option<string>,
    status: string,
    imageUrl: Option<string>,
    createdAt: Option<int>,
    updatedAt: Option<int>,
    lostAt: Option<int>,
    lostLocation: Option<string>)

  /** `InsertDocument`, with the `createdAt`/`updatedAt` that `createDocument` reads. */
  datatype InsertDocument = InsertDocument(
    userId: int,
    kind: string,
    name: string,
    documentNumber: string,
    description: Option<string>,
    status: string,
    imageUrl: Option<string>,
    lostAt: Option<int>,
    lostLocation: Option<string>,
    createdAt: Option<int>,
    updatedAt: Option<int>)

  /** `Partial<Document>` without `id`. */
  datatype DocumentPatch = DocumentPatch(
    userId: Field<int>,
    kind: Field<string>,
    name: Field<string>,
    documentNumber: Field<string>,
    description: Field<Option<string>>,
    status: Field<string>,
    imageUrl: Field<Option<string>>,
    createdAt: Field<Option<int>>,
    updatedAt: Field<Option<int>>,
    lostAt: Field<Option<int>>,
    lostLocation: Field<Option<string>>)

  const NoDocumentChange := DocumentPatch(Keep, Keep, Keep, Keep, Keep, Keep, Keep, Keep, Keep, Keep, Keep)

  /** The document `createDocument` stores: both timestamps default to `now`. */
  function NewDocument(ins: InsertDocument, id: int, now: int): Document {
    Document(id, ins.userId, ins.kind, ins.name, ins.documentNumber, ins.description,
             ins.status, ins.imageUrl, Some(ins.createdAt.GetOr(now)),
             Some(ins.updatedAt.GetOr(now)), ins.lostAt, ins.lostLocation)
  }

  /** `{ ...document, ...data, updatedAt: now }`. */
  function MergeDocument(d: Document, data: DocumentPatch, now: int): Document {
    Document(d.id, data.userId.Over(d.userId), data.kind.Over(d.kind), data.name.Over(d.name),
             data.documentNumber.Over(d.documentNumber), data.description.Over(d.description),
             data.status.Over(d.status), data.imageUrl.Over(d.imageUrl),
             data.createdAt.Over(d.createdAt), Some(now), data.lostAt.Over(d.lostAt),
             data.lostLocation.Over(d.lostLocation))
  }

  /** A lost report as the store keeps it (its `document`/`user` are filled in on reads). */
  datatype LostDocument = LostDocument(
    id: int,
    documentId: int,
    userId: int,
    lostAt: int,
    lostLocation: Option<string>,
    description: string)

  datatype InsertLostDocument = InsertLostDocument(
    documentId: int,
    userId: int,
    lostAt: int,
    lostLocation: Option<string>,
    description: string)

  function NewLostDocument(ins: InsertLostDocument, id: int): LostDocument {
    LostDocument(id, ins.documentId, ins.userId, ins.lostAt, ins.lostLocation, ins.description)
  }

  /** A lost report joined with its document and its reporter, as the reads return it. */
  datatype LostDocumentView = LostDocumentView(report: LostDocument, document: Document, user: User)

  datatype FoundDocument = FoundDocument(
    id: int,
    foundBy: int,
    foundLocation: string,
    documentType: string,
    description: string,
    imageUrl: Option<string>,
    foundAt: int,
    status: string,
    possibleMatches: Option<seq<int>>)

  datatype InsertFoundDocument = InsertFoundDocument(
    foundBy: int,
    foundLocation: string,
    documentType: string,
    description: string,
    imageUrl: Option<string>,
    foundAt: Option<int>,
    status: Option<string>,
    possibleMatches: Option<seq<int>>)

  /** The found report `createFoundDocument` stores: `foundAt` defaults to `now` and an absent
      or empty `status` to "pending". */
  function NewFoundDocument(ins: InsertFoundDocument, id: int, now: int): FoundDocument {
    FoundDocument(id, ins.foundBy, ins.foundLocation, ins.documentType, ins.description,
                  ins.imageUrl, ins.foundAt.GetOr(now), OrElse(ins.status, "pending"),
                  ins.possibleMatches)
  }

  datatype Chat = Chat(
    id: int,
    conversationId: int,
    senderId: int,
    text: Option<string>,
    imageUrl: Option<string>,
    timestamp: int,
    read: bool)

  datatype InsertChat = InsertChat(
    conversationId: int,
    senderId: int,
    text: Option<string>,
    imageUrl: Option<string>,
    timestamp: Option<int>,
    read: Option<bool>)

  /** The message `createMessage` stores: `timestamp` defaults to `now`, `read` is
      `insert.read || false`. */
  function NewChat(ins: InsertChat, id: int, now: int): Chat {
    Chat(id, ins.conversationId, ins.senderId, ins.text, ins.imageUrl,
         ins.timestamp.GetOr(now), ins.read == Some(true))
  }

  datatype Conversation = Conversation(
    id: int,
    participants: seq<int>,
    lastMessage: Option<Chat>,
    documentId: Option<int>,
    createdAt: int)

  datatype InsertConversation = InsertConversation(
    participants: seq<int>,
    documentId: Option<int>,
    createdAt: Option<int>)

  /** A new conversation has no last message; `createdAt` defaults to `now`. */
  function NewConversation(ins: InsertConversation, id: int, now: int): Conversation {
    Conversation(id, ins.participants, None, ins.documentId, ins.createdAt.GetOr(now))
  }

  /** A row of the `translations` table. */
  datatype TranslationRow = TranslationRow(key: string, en: string, pt: string)
}
